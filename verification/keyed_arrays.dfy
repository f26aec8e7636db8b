/** Arrays matched by key: their object form, the walk that finds them in every root, and the way back. */
module KeyedArrays {
  import opened Options
  import opened Listings
  import opened Json
  import opened KeyOrders

  /** The key of an array item, `None` for an item without one. */
  type ItemKey = Json -> Option<string>

  function Prefixed(key: string): string {
    "#" + key
  }

  /** The items of an array by prefixed key, and the keys in the array's order. */
  datatype KeyedItems = KeyedItems(keys: seq<string>, items: map<string, Json>)

  /** `None` when an item has no key or a key repeats. */
  function ItemsByKey(items: seq<Json>, itemKey: ItemKey): (r: Option<KeyedItems>)
    ensures r.Some? ==> |r.value.keys| == |items| && Listing(r.value.keys, r.value.items.Keys)
    ensures r.Some? ==> forall i | 0 <= i < |items| :: r.value.items[r.value.keys[i]] == items[i]
  {
    if items == [] then Some(KeyedItems([], map[]))
    else
      var last := items[|items| - 1];
      match ItemsByKey(items[..|items| - 1], itemKey)
      case None => None
      case Some(front) =>
        match itemKey(last)
        case None => None
        case Some(key) =>
          var k := Prefixed(key);
          if k in front.items then None
          else
            assert Distinct([k]);
            DistinctConcat(front.keys, [k]);
            Some(KeyedItems(front.keys + [k], front.items[k := last]))
  }

  /** Every item stands under its own key. */
  lemma {:induction false} ItemsCarryKeys(items: seq<Json>, itemKey: ItemKey)
    requires ItemsByKey(items, itemKey).Some?
    ensures var keyed := ItemsByKey(items, itemKey).value.items;
            forall k | k in keyed :: itemKey(keyed[k]).Some? && Prefixed(itemKey(keyed[k]).value) == k
  {
    if items != [] {
      ItemsCarryKeys(items[..|items| - 1], itemKey);
    }
  }

  lemma SnocByKey(items: seq<Json>, last: Json, itemKey: ItemKey)
    requires ItemsByKey(items, itemKey).Some?
    ensures var (front, key) := (ItemsByKey(items, itemKey).value, itemKey(last));
            ItemsByKey(items + [last], itemKey)
            == if key.None? || Prefixed(key.value) in front.items then None
               else Some(KeyedItems(front.keys + [Prefixed(key.value)], front.items[Prefixed(key.value) := last]))
  {
    assert (items + [last])[..|items|] == items;
  }

  // How deep a value is, by which the walk over all roots ends.

  ghost function Height(j: Json): (h: nat)
    ensures h > 0
    ensures forall k :: Child(j, k).Some? ==> Height(Child(j, k).value) < h
    decreases j, 1
  {
    match j
    case Obj(fields) => 1 + TallestField(j, fields.Keys)
    case Arr(items) => 1 + TallestItem(j, |items|)
    case _ => 1
  }

  ghost function TallestField(j: Json, keys: set<string>): (h: nat)
    requires j.Obj? && keys <= j.fields.Keys
    ensures forall k | k in keys :: Height(j.fields[k]) <= h
    decreases j, 0, keys
  {
    if keys == {} then 0
    else
      var k :| k in keys;
      Max(Height(j.fields[k]), TallestField(j, keys - {k}))
  }

  ghost function TallestItem(j: Json, n: nat): (h: nat)
    requires j.Arr? && n <= |j.items|
    ensures forall i | 0 <= i < n :: Height(j.items[i]) <= h
    decreases j, 0, n
  {
    if n == 0 then 0 else Max(Height(j.items[n - 1]), TallestItem(j, n - 1))
  }

  function Max(a: nat, b: nat): nat {
    if a >= b then a else b
  }

  /** The roots of a replay or a comparison, `None` for one that holds nothing at the address. */
  type Roots = seq<Option<Json>>

  ghost function Tallest(roots: Roots): (h: nat)
    ensures forall i | 0 <= i < |roots| && roots[i].Some? :: Height(roots[i].value) <= h
    ensures h > 0 ==> exists i :: 0 <= i < |roots| && roots[i].Some? && Height(roots[i].value) == h
  {
    if roots == [] then 0
    else
      var h := Tallest(roots[1..]);
      assert forall i | 0 <= i < |roots[1..]| :: roots[1..][i] == roots[i + 1];
      if roots[0].Some? then Max(Height(roots[0].value), h) else h
  }

  // The walk.

  /** How the roots hold a value: as arrays all matched by key, as objects, or otherwise, which is left as it is. */
  datatype Level =
    | Items(children: seq<Option<map<string, Json>>>, lists: KeyLists)
    | Fields(children: seq<Option<map<string, Json>>>)
    | Whole

  predicate AnyPresent(roots: Roots) {
    exists root | root in roots :: root.Some?
  }

  predicate AllArrays(roots: Roots) {
    AnyPresent(roots) && forall root | root in roots && root.Some? :: root.value.Arr?
  }

  predicate AllObjects(roots: Roots) {
    AnyPresent(roots) && forall root | root in roots && root.Some? :: root.value.Obj?
  }

  function Keyed(root: Option<Json>, itemKey: ItemKey): Option<KeyedItems> {
    if root.Some? && root.value.Arr? then ItemsByKey(root.value.items, itemKey) else None
  }

  function LevelOf(roots: Roots, itemKey: ItemKey): (level: Level)
    ensures !level.Whole? ==> |level.children| == |roots|
    ensures level.Items? ==> |level.lists| == |roots|
  {
    if AllArrays(roots) then
      if exists root | root in roots :: root.Some? && Keyed(root, itemKey).None? then Whole
      else Items(ItemMaps(roots, itemKey), ItemLists(roots, itemKey))
    else if AllObjects(roots) then Fields(FieldMaps(roots))
    else Whole
  }

  function ItemMaps(roots: Roots, itemKey: ItemKey): seq<Option<map<string, Json>>> {
    seq(|roots|, i requires 0 <= i < |roots| => ItemMap(roots[i], itemKey))
  }

  function ItemLists(roots: Roots, itemKey: ItemKey): KeyLists {
    seq(|roots|, i requires 0 <= i < |roots| => ItemList(roots[i], itemKey))
  }

  function FieldMaps(roots: Roots): seq<Option<map<string, Json>>> {
    seq(|roots|, i requires 0 <= i < |roots| => FieldMap(roots[i]))
  }

  lemma ItemsHeld(roots: Roots, itemKey: ItemKey, i: nat)
    requires LevelOf(roots, itemKey).Items? && i < |roots|
    ensures roots[i].Some? ==> roots[i].value.Arr? && Keyed(roots[i], itemKey).Some?
    ensures LevelOf(roots, itemKey).children[i] == ItemMap(roots[i], itemKey)
    ensures LevelOf(roots, itemKey).lists[i] == ItemList(roots[i], itemKey)
  {
    if roots[i].Some? {
      assert roots[i] in roots;
    }
  }

  lemma FieldsHeld(roots: Roots, itemKey: ItemKey, i: nat)
    requires LevelOf(roots, itemKey).Fields? && i < |roots|
    ensures roots[i].Some? ==> roots[i].value.Obj?
    ensures LevelOf(roots, itemKey).children[i] == FieldMap(roots[i])
  {
    if roots[i].Some? {
      assert roots[i] in roots;
    }
  }

  function ItemMap(root: Option<Json>, itemKey: ItemKey): Option<map<string, Json>> {
    if Keyed(root, itemKey).Some? then Some(Keyed(root, itemKey).value.items) else None
  }

  function ItemList(root: Option<Json>, itemKey: ItemKey): Option<seq<string>> {
    if Keyed(root, itemKey).Some? then Some(Keyed(root, itemKey).value.keys) else None
  }

  function FieldMap(root: Option<Json>): Option<map<string, Json>> {
    if root.Some? && root.value.Obj? then Some(root.value.fields) else None
  }

  function NameSet(children: seq<Option<map<string, Json>>>): (names: set<string>)
    ensures forall n :: n in names <==> exists i :: 0 <= i < |children| && children[i].Some? && n in children[i].value
  {
    set i, n | 0 <= i < |children| && children[i].Some? && n in children[i].value :: n
  }

  function Below(children: seq<Option<map<string, Json>>>, name: string): Roots {
    seq(|children|, i requires 0 <= i < |children| =>
      if children[i].Some? && name in children[i].value then Some(children[i].value[name]) else None)
  }

  lemma ItemIsChild(items: seq<Json>, itemKey: ItemKey, k: string)
    requires ItemsByKey(items, itemKey).Some? && k in ItemsByKey(items, itemKey).value.items
    ensures exists i :: 0 <= i < |items| && items[i] == ItemsByKey(items, itemKey).value.items[k]
  {
    var keyed := ItemsByKey(items, itemKey).value;
    var i :| 0 <= i < |keyed.keys| && keyed.keys[i] == k;
    assert items[i] == keyed.items[k];
  }

  lemma ChildIsLower(root: Json, itemKey: ItemKey, name: string)
    ensures root.Arr? && ItemsByKey(root.items, itemKey).Some? && name in ItemsByKey(root.items, itemKey).value.items
            ==> Height(ItemsByKey(root.items, itemKey).value.items[name]) < Height(root)
    ensures root.Obj? && name in root.fields ==> Height(root.fields[name]) < Height(root)
  {
    if root.Arr? && ItemsByKey(root.items, itemKey).Some? && name in ItemsByKey(root.items, itemKey).value.items {
      ItemIsChild(root.items, itemKey, name);
      var n :| 0 <= n < |root.items| && root.items[n] == ItemsByKey(root.items, itemKey).value.items[name];
      IndexOfName(n);
      assert Child(root, Name(n)) == Some(root.items[n]);
    } else if root.Obj? && name in root.fields {
      assert Child(root, name) == Some(root.fields[name]);
    }
  }

  lemma BelowIsLower(roots: Roots, itemKey: ItemKey, name: string)
    requires !LevelOf(roots, itemKey).Whole?
    ensures Tallest(Below(LevelOf(roots, itemKey).children, name)) < Tallest(roots)
  {
    var below := Below(LevelOf(roots, itemKey).children, name);
    if Tallest(below) > 0 {
      var i :| 0 <= i < |below| && below[i].Some? && Height(below[i].value) == Tallest(below);
      ChildIsLower(roots[i].value, itemKey, name);
    } else {
      var p :| 0 <= p < |roots| && roots[p].Some?;
      assert Height(roots[p].value) <= Tallest(roots);
    }
  }

  /** What was found below each name, together. */
  function Together(at: Path, below: map<string, map<Path, KeyLists>>): (all: map<Path, KeyLists>)
    requires forall n, q | n in below && q in below[n] :: at + [n] <= q
    ensures forall q :: q in all <==> |q| > |at| && q[|at|] in below && q in below[q[|at|]]
    ensures forall q | q in all :: at <= q && all[q] == below[q[|at|]][q]
  {
    var paths := set n, q | n in below && q in below[n] :: q;
    assert forall n, q | n in below && q in below[n] :: |q| > |at| && q[|at|] == (at + [n])[|at|] == n && at <= q;
    map q | q in paths :: below[q[|at|]][q]
  }

  /** The arrays matched by key in all roots that hold them, by pointer, with the keys each root lists. */
  function KeyedArraysOf(roots: Roots, at: Path, itemKey: ItemKey): (keyed: map<Path, KeyLists>)
    ensures forall q | q in keyed :: at <= q
    decreases Tallest(roots)
  {
    var level := LevelOf(roots, itemKey);
    if level.Whole? then map[]
    else
      var below := map n | n in NameSet(level.children)
                       :: (BelowIsLower(roots, itemKey, n); KeyedArraysOf(Below(level.children, n), at + [n], itemKey));
      var all := Together(at, below);
      if level.Items? then all[at := level.lists] else all
  }

  // One root's object form, and the way back.

  /** `root` with each array of `keyed` an object from key to item. */
  function Form(root: Json, at: Path, keyed: map<Path, KeyLists>, itemKey: ItemKey): (form: Json)
    ensures root.Obj? ==> form.Obj?
    decreases Height(root)
  {
    match root
    case Obj(fields) => Obj(map k | k in fields ::
      (ChildIsLower(root, itemKey, k); Form(fields[k], at + [k], keyed, itemKey)))
    case Arr(items) =>
      if at in keyed && ItemsByKey(items, itemKey).Some? then
        var children := ItemsByKey(items, itemKey).value.items;
        Obj(map k | k in children :: (ChildIsLower(root, itemKey, k); Form(children[k], at + [k], keyed, itemKey)))
      else root
    case _ => root
  }

  function FormOf(root: Option<Json>, at: Path, keyed: map<Path, KeyLists>, itemKey: ItemKey): Option<Json> {
    if root.Some? then Some(Form(root.value, at, keyed, itemKey)) else None
  }

  /** An array matched by key: its keys in each root, and the order it keeps. */
  datatype KeyedArray = KeyedArray(lists: KeyLists, kept: seq<string>)

  /** `value` with each object that stands for an array of `arrays` an array again. */
  function Restored(value: Json, at: Path, arrays: map<Path, KeyedArray>): Json
    requires forall q | q in arrays :: |arrays[q].lists| == 3
    decreases value, 1
  {
    match value
    case Obj(_) =>
      var entries := Entries(value, at, arrays);
      if at in arrays then Arr(Arranged(entries, arrays[at])) else Obj(entries)
    case _ => value
  }

  function Entries(value: Json, at: Path, arrays: map<Path, KeyedArray>): map<string, Json>
    requires value.Obj? && forall q | q in arrays :: |arrays[q].lists| == 3
    decreases value, 0
  {
    map k | k in value.fields :: Restored(value.fields[k], at + [k], arrays)
  }

  /** The merged items of one array matched by key, in the kept order. */
  function Arranged(entries: map<string, Json>, keyed: KeyedArray): seq<Json>
    requires |keyed.lists| == 3
  {
    var order := ArrangedKeys(entries.Keys, keyed.lists, keyed.kept);
    OnlyMembers(FullOrder(keyed.lists, keyed.kept), entries.Keys);
    seq(|order|, i requires 0 <= i < |order| => entries[order[i]])
  }

  /** The `i`th root of a walk is what the walk found: an array with its listed keys at each pointer of `keyed`. */
  ghost predicate Fits(root: Json, at: Path, keyed: map<Path, KeyLists>, itemKey: ItemKey, i: nat)
    decreases Height(root)
  {
    if at in keyed then
      && root.Arr? && ItemsByKey(root.items, itemKey).Some?
      && var items := ItemsByKey(root.items, itemKey).value;
         && i < |keyed[at]| && keyed[at][i] == Some(items.keys)
         && forall k | k in items.items ::
           (ChildIsLower(root, itemKey, k); Fits(items.items[k], at + [k], keyed, itemKey, i))
    else
      root.Obj? ==> forall k | k in root.fields ::
        (ChildIsLower(root, itemKey, k); Fits(root.fields[k], at + [k], keyed, itemKey, i))
  }

  /** Arrays kept each in the order the `i`th root has them in. */
  ghost predicate KeepsOrderOf(at: Path, keyed: map<Path, KeyLists>, arrays: map<Path, KeyedArray>, i: nat) {
    forall q | at <= q && q in keyed ::
      && q in arrays && |arrays[q].lists| == 3
      && (i < |keyed[q]| && keyed[q][i].Some?
          ==> ArrangedKeys(Members(keyed[q][i].value), arrays[q].lists, arrays[q].kept) == keyed[q][i].value)
  }

  lemma {:induction false} RestoreForm(root: Json, at: Path, keyed: map<Path, KeyLists>, itemKey: ItemKey, i: nat,
          arrays: map<Path, KeyedArray>)
    requires Fits(root, at, keyed, itemKey, i) && KeepsOrderOf(at, keyed, arrays, i)
    requires forall q | q in arrays :: q in keyed && |arrays[q].lists| == 3
    ensures Restored(Form(root, at, keyed, itemKey), at, arrays) == root
    decreases Height(root)
  {
    if root.Obj? {
      RestoreFields(root, at, keyed, itemKey, i, arrays);
    } else if root.Arr? && at in keyed {
      RestoreItems(root, at, keyed, itemKey, i, arrays);
    }
  }

  lemma {:induction false} RestoreFields(root: Json, at: Path, keyed: map<Path, KeyLists>, itemKey: ItemKey, i: nat,
          arrays: map<Path, KeyedArray>)
    requires root.Obj?
    requires Fits(root, at, keyed, itemKey, i) && KeepsOrderOf(at, keyed, arrays, i)
    requires forall q | q in arrays :: q in keyed && |arrays[q].lists| == 3
    ensures Restored(Form(root, at, keyed, itemKey), at, arrays) == root
    decreases Height(root), 0
  {
    var form := Form(root, at, keyed, itemKey);
    var entries := Entries(form, at, arrays);
    forall k | k in root.fields ensures entries[k] == root.fields[k] {
      ChildIsLower(root, itemKey, k);
      RestoreForm(root.fields[k], at + [k], keyed, itemKey, i, arrays);
    }
    assert entries == root.fields;
    assert at !in arrays;
  }

  lemma {:induction false} RestoreItems(root: Json, at: Path, keyed: map<Path, KeyLists>, itemKey: ItemKey, i: nat,
          arrays: map<Path, KeyedArray>)
    requires root.Arr? && at in keyed
    requires Fits(root, at, keyed, itemKey, i) && KeepsOrderOf(at, keyed, arrays, i)
    requires forall q | q in arrays :: q in keyed && |arrays[q].lists| == 3
    ensures Restored(Form(root, at, keyed, itemKey), at, arrays) == root
    decreases Height(root), 0, 2
  {
    var items := ItemsByKey(root.items, itemKey).value;
    assert keyed[at][i] == Some(items.keys);
    EntriesOfItems(root, at, keyed, itemKey, i, arrays);
    ArrangedInOrder(root, itemKey, arrays[at]);
  }

  lemma {:induction false} EntriesOfItems(root: Json, at: Path, keyed: map<Path, KeyLists>, itemKey: ItemKey, i: nat,
          arrays: map<Path, KeyedArray>)
    requires root.Arr? && at in keyed
    requires Fits(root, at, keyed, itemKey, i) && KeepsOrderOf(at, keyed, arrays, i)
    requires forall q | q in arrays :: q in keyed && |arrays[q].lists| == 3
    ensures Form(root, at, keyed, itemKey).Obj?
    ensures Entries(Form(root, at, keyed, itemKey), at, arrays) == ItemsByKey(root.items, itemKey).value.items
    decreases Height(root), 0, 1
  {
    var items := ItemsByKey(root.items, itemKey).value.items;
    var form := Form(root, at, keyed, itemKey);
    FormOfItems(root, at, keyed, itemKey);
    forall k | k in items ensures Restored(form.fields[k], at + [k], arrays) == items[k] {
      EntryOfItem(root, at, keyed, itemKey, i, arrays, k);
    }
    EqualEntries(form, at, arrays, items);
  }

  lemma EqualEntries(form: Json, at: Path, arrays: map<Path, KeyedArray>, items: map<string, Json>)
    requires form.Obj? && form.fields.Keys == items.Keys && forall q | q in arrays :: |arrays[q].lists| == 3
    requires forall k | k in items :: Restored(form.fields[k], at + [k], arrays) == items[k]
    ensures Entries(form, at, arrays) == items
  {
  }

  lemma FormOfItems(root: Json, at: Path, keyed: map<Path, KeyLists>, itemKey: ItemKey)
    requires root.Arr? && at in keyed && ItemsByKey(root.items, itemKey).Some?
    ensures var (form, items) := (Form(root, at, keyed, itemKey), ItemsByKey(root.items, itemKey).value.items);
            form.Obj? && form.fields.Keys == items.Keys
              && forall k | k in items :: form.fields[k] == Form(items[k], at + [k], keyed, itemKey)
  {
  }

  lemma {:induction false} EntryOfItem(root: Json, at: Path, keyed: map<Path, KeyLists>, itemKey: ItemKey, i: nat,
          arrays: map<Path, KeyedArray>, k: string)
    requires root.Arr? && at in keyed
    requires Fits(root, at, keyed, itemKey, i) && KeepsOrderOf(at, keyed, arrays, i)
    requires forall q | q in arrays :: q in keyed && |arrays[q].lists| == 3
    requires k in ItemsByKey(root.items, itemKey).value.items
    ensures var item := ItemsByKey(root.items, itemKey).value.items[k];
            Restored(Form(item, at + [k], keyed, itemKey), at + [k], arrays) == item
    decreases Height(root), 0, 0
  {
    ChildIsLower(root, itemKey, k);
    RestoreForm(ItemsByKey(root.items, itemKey).value.items[k], at + [k], keyed, itemKey, i, arrays);
  }

  /** Kept in their own order, an array's items make the array. */
  lemma ArrangedInOrder(root: Json, itemKey: ItemKey, keyed: KeyedArray)
    requires root.Arr? && ItemsByKey(root.items, itemKey).Some? && |keyed.lists| == 3
    requires var keys := ItemsByKey(root.items, itemKey).value.keys;
             ArrangedKeys(Members(keys), keyed.lists, keyed.kept) == keys
    ensures Arranged(ItemsByKey(root.items, itemKey).value.items, keyed) == root.items
  {
    var items := ItemsByKey(root.items, itemKey).value;
    assert Members(items.keys) == items.items.Keys;
  }

  // The walk finds what each root holds.

  ghost predicate SameFrom(at: Path, keyed: map<Path, KeyLists>, found: map<Path, KeyLists>) {
    forall q | at <= q :: (q in keyed <==> q in found) && (q in keyed ==> keyed[q] == found[q])
  }

  lemma {:induction false} FitsNothing(root: Json, at: Path, keyed: map<Path, KeyLists>, itemKey: ItemKey, i: nat)
    requires forall q | q in keyed :: !(at <= q)
    ensures Fits(root, at, keyed, itemKey, i) && Form(root, at, keyed, itemKey) == root
    decreases Height(root)
  {
    if root.Obj? {
      forall k | k in root.fields
        ensures Fits(root.fields[k], at + [k], keyed, itemKey, i)
                && Form(root.fields[k], at + [k], keyed, itemKey) == root.fields[k]
      {
        ChildIsLower(root, itemKey, k);
        FitsNothing(root.fields[k], at + [k], keyed, itemKey, i);
      }
    }
  }

  /** What the walk finds below the name `k`. */
  function WalkBelow(roots: Roots, at: Path, itemKey: ItemKey, k: string): map<Path, KeyLists>
    requires !LevelOf(roots, itemKey).Whole?
  {
    KeyedArraysOf(Below(LevelOf(roots, itemKey).children, k), at + [k], itemKey)
  }

  /** An array found is the one at the address itself, or found below one name. */
  lemma FoundAt(roots: Roots, at: Path, itemKey: ItemKey, q: Path)
    requires !LevelOf(roots, itemKey).Whole? && q != at
    ensures var keyed := KeyedArraysOf(roots, at, itemKey);
            && (q in keyed <==> |q| > |at| && q[|at|] in NameSet(LevelOf(roots, itemKey).children)
                                && q in WalkBelow(roots, at, itemKey, q[|at|]))
            && (q in keyed ==> keyed[q] == WalkBelow(roots, at, itemKey, q[|at|])[q])
  {
  }

  lemma FoundBelow(roots: Roots, at: Path, itemKey: ItemKey, keyed: map<Path, KeyLists>, k: string)
    requires !LevelOf(roots, itemKey).Whole? && k in NameSet(LevelOf(roots, itemKey).children)
    requires SameFrom(at, keyed, KeyedArraysOf(roots, at, itemKey))
    ensures SameFrom(at + [k], keyed, WalkBelow(roots, at, itemKey, k))
  {
    forall q | at + [k] <= q
      ensures (q in keyed <==> q in WalkBelow(roots, at, itemKey, k))
              && (q in keyed ==> keyed[q] == WalkBelow(roots, at, itemKey, k)[q])
    {
      assert (at + [k])[|at|] == k && at <= q;
      FoundAt(roots, at, itemKey, q);
    }
  }

  lemma {:induction false} WalkFits(roots: Roots, at: Path, itemKey: ItemKey, i: nat, keyed: map<Path, KeyLists>)
    requires i < |roots| && roots[i].Some?
    requires SameFrom(at, keyed, KeyedArraysOf(roots, at, itemKey))
    ensures Fits(roots[i].value, at, keyed, itemKey, i)
    decreases Tallest(roots)
  {
    var (level, root) := (LevelOf(roots, itemKey), roots[i].value);
    if level.Whole? {
      FitsNothing(root, at, keyed, itemKey, i);
    } else {
      assert at in keyed <==> level.Items?;
      var children := level.children[i].value;
      forall k | k in children ensures Fits(children[k], at + [k], keyed, itemKey, i) {
        WalkFitsBelow(roots, at, itemKey, i, keyed, k);
      }
    }
  }

  lemma {:induction false} WalkFitsBelow(roots: Roots, at: Path, itemKey: ItemKey, i: nat, keyed: map<Path, KeyLists>,
          k: string)
    requires i < |roots| && roots[i].Some? && !LevelOf(roots, itemKey).Whole?
    requires SameFrom(at, keyed, KeyedArraysOf(roots, at, itemKey))
    requires LevelOf(roots, itemKey).children[i].Some? && k in LevelOf(roots, itemKey).children[i].value
    ensures Fits(LevelOf(roots, itemKey).children[i].value[k], at + [k], keyed, itemKey, i)
    decreases Tallest(roots), 0
  {
    var below := Below(LevelOf(roots, itemKey).children, k);
    assert k in NameSet(LevelOf(roots, itemKey).children);
    FoundBelow(roots, at, itemKey, keyed, k);
    BelowIsLower(roots, itemKey, k);
    WalkFits(below, at + [k], itemKey, i, keyed);
  }

  lemma LevelLists(roots: Roots, itemKey: ItemKey)
    requires LevelOf(roots, itemKey).Items?
    ensures AllDistinct(LevelOf(roots, itemKey).lists)
  {
    var lists := LevelOf(roots, itemKey).lists;
    forall i | 0 <= i < |lists| && lists[i].Some? ensures Distinct(lists[i].value) {
      assert lists[i] == ItemList(roots[i], itemKey);
    }
  }

  /** Each list found is one root's, with its keys distinct. */
  lemma {:induction false} WalkLists(roots: Roots, at: Path, itemKey: ItemKey, q: Path)
    requires q in KeyedArraysOf(roots, at, itemKey)
    ensures |KeyedArraysOf(roots, at, itemKey)[q]| == |roots| && AllDistinct(KeyedArraysOf(roots, at, itemKey)[q])
    decreases Tallest(roots)
  {
    if q == at {
      FoundHere(roots, at, itemKey);
      LevelLists(roots, itemKey);
    } else {
      var below := Below(LevelOf(roots, itemKey).children, q[|at|]);
      FoundAt(roots, at, itemKey, q);
      BelowIsLower(roots, itemKey, q[|at|]);
      WalkLists(below, at + [q[|at|]], itemKey, q);
      assert KeyedArraysOf(roots, at, itemKey)[q] == KeyedArraysOf(below, at + [q[|at|]], itemKey)[q];
    }
  }

  lemma FoundHere(roots: Roots, at: Path, itemKey: ItemKey)
    requires at in KeyedArraysOf(roots, at, itemKey)
    ensures LevelOf(roots, itemKey).Items? && KeyedArraysOf(roots, at, itemKey)[at] == LevelOf(roots, itemKey).lists
  {
  }

  lemma EqualRootsEqualLevel(roots: Roots, itemKey: ItemKey, i: nat, j: nat, k: string)
    requires i < |roots| && j < |roots| && roots[i] == roots[j]
    ensures LevelOf(roots, itemKey).Items? ==> LevelOf(roots, itemKey).lists[i] == LevelOf(roots, itemKey).lists[j]
    ensures !LevelOf(roots, itemKey).Whole?
            ==> Below(LevelOf(roots, itemKey).children, k)[i] == Below(LevelOf(roots, itemKey).children, k)[j]
  {
  }

  /** Two equal roots list the same keys everywhere. */
  lemma {:induction false} EqualRootsListAlike(roots: Roots, at: Path, itemKey: ItemKey, i: nat, j: nat, q: Path,
          lists: KeyLists)
    requires i < |roots| && j < |roots| && roots[i] == roots[j]
    requires q in KeyedArraysOf(roots, at, itemKey) && KeyedArraysOf(roots, at, itemKey)[q] == lists
             && |lists| == |roots|
    ensures lists[i] == lists[j]
    decreases Tallest(roots)
  {
    if q == at {
      FoundHere(roots, at, itemKey);
      EqualRootsEqualLevel(roots, itemKey, i, j, "");
    } else {
      var k := q[|at|];
      FoundAt(roots, at, itemKey, q);
      BelowIsLower(roots, itemKey, k);
      EqualRootsEqualLevel(roots, itemKey, i, j, k);
      EqualRootsListAlike(Below(LevelOf(roots, itemKey).children, k), at + [k], itemKey, i, j, q, lists);
    }
  }
}
