/** Two changes that write no path leading to or into one the other writes never conflict, items addressed by key. */
module UnrelatedPaths {
  import opened Options
  import opened Listings
  import opened Json
  import opened JsonPatch
  import opened PatchRoundTrip
  import opened FieldMerge
  import opened MergeLaws
  import opened ThreeWayMerge
  import opened KeyOrders
  import opened KeyedArrays
  import opened ReplayByKeys
  import opened Reconciliation

  // A change and the change back write the same paths.

  /** The change back has an operation on every path that the change writes. */
  lemma {:induction false} ChangeBack(ord: KeyOrder, x: Json, y: Json, op: Op) returns (back: Op)
    requires x.Obj? && y.Obj? && ArrayFree(x) && ArrayFree(y) && op in Diff(ord, x, y)
    ensures back in Diff(ord, y, x) && back.path == op.path
    decreases |op.path|
  {
    DiffEdits(ord, x, y);
    assert Edits(x, y, op);
    var k := op.path[0];
    DiffOrderLists(ord, x, y);
    FieldOpsMember(ord, x, y, DiffOrder(ord, x, y), op);
    if k in x.fields && k in y.fields && SameKind(x.fields[k], y.fields[k]) {
      var below := Diff(ord, x.fields[k], y.fields[k]);
      var i :| 0 <= i < |below| && Under(k, below)[i] == op;
      var lowered := ChangeBack(ord, x.fields[k], y.fields[k], below[i]);
      DiffEdits(ord, y.fields[k], x.fields[k]);
      assert Edits(y.fields[k], x.fields[k], lowered);
      DiffMemberUnder(ord, y, x, k, lowered);
      back := Lifted(k, lowered);
    } else {
      WholeFieldDiff(ord, x, y, k);
      WholeFieldDiff(ord, y, x, k);
      back := FieldDiff(ord, y, x, k)[0];
      FieldOpInDiff(ord, y, x, k, back);
    }
  }

  /** Where a value is gone, some operation of the change leads to it. */
  lemma {:induction false} LossIsWritten(ord: KeyOrder, x: Json, y: Json, p: Path) returns (op: Op)
    requires x.Obj? && y.Obj? && ArrayFree(x) && ArrayFree(y) && Get(x, p).Some? && Get(y, p).None?
    ensures op in Diff(ord, x, y) && op.path <= p
    decreases |p|
  {
    var k := p[0];
    assert Child(x, k).Some?;
    if k in y.fields && SameKind(x.fields[k], y.fields[k]) {
      var below := LossIsWritten(ord, x.fields[k], y.fields[k], p[1..]);
      DiffEdits(ord, x.fields[k], y.fields[k]);
      assert Edits(x.fields[k], y.fields[k], below);
      DiffMemberUnder(ord, x, y, k, below);
      op := Lifted(k, below);
      assert p == [k] + p[1..];
    } else {
      WholeFieldDiff(ord, x, y, k);
      GetDiffers(x, y, p);
      op := FieldDiff(ord, x, y, k)[0];
      FieldOpInDiff(ord, x, y, k, op);
      assert p[..1] == [k];
    }
  }

  lemma GetDiffers(x: Json, y: Json, p: Path)
    requires p != [] && Get(x, p) != Get(y, p)
    ensures Child(x, p[0]) != Child(y, p[0])
  {
  }

  // The roots of a comparison in another order.

  function Swap<T>(s: seq<T>): seq<T>
    requires |s| == 3
  {
    [s[1], s[0], s[2]]
  }

  lemma SwappedMembers(roots: Roots)
    requires |roots| == 3
    ensures AllArrays(Swap(roots)) == AllArrays(roots) && AllObjects(Swap(roots)) == AllObjects(roots)
    ensures forall root :: root in Swap(roots) <==> root in roots
  {
    assert roots == [roots[0], roots[1], roots[2]];
    assert forall root :: root in Swap(roots) <==> root in roots;
  }

  lemma SwappedMaps(roots: Roots, itemKey: ItemKey)
    requires |roots| == 3
    ensures ItemMaps(Swap(roots), itemKey) == Swap(ItemMaps(roots, itemKey))
    ensures ItemLists(Swap(roots), itemKey) == Swap(ItemLists(roots, itemKey))
    ensures FieldMaps(Swap(roots)) == Swap(FieldMaps(roots))
  {
  }

  lemma SwappedLevel(roots: Roots, itemKey: ItemKey)
    requires |roots| == 3
    ensures LevelOf(Swap(roots), itemKey)
         == match LevelOf(roots, itemKey)
            case Items(children, lists) => Items(Swap(children), Swap(lists))
            case Fields(children) => Fields(Swap(children))
            case Whole => Whole
  {
    SwappedMembers(roots);
    SwappedMaps(roots, itemKey);
  }

  /** What a walk records for `q` in the swapped order is what it records, swapped. */
  ghost predicate SwapsAt(roots: Roots, at: Path, itemKey: ItemKey, q: Path)
    requires |roots| == 3
  {
    var (keyed, swapped) := (KeyedArraysOf(roots, at, itemKey), KeyedArraysOf(Swap(roots), at, itemKey));
    && (q in swapped <==> q in keyed)
    && (q in keyed ==> |keyed[q]| == 3 && swapped[q] == Swap(keyed[q]))
  }

  lemma {:induction false} SwappedWalk(roots: Roots, at: Path, itemKey: ItemKey, q: Path)
    requires |roots| == 3
    ensures SwapsAt(roots, at, itemKey, q)
    decreases Tallest(roots)
  {
    SwappedLevel(roots, itemKey);
    var level := LevelOf(roots, itemKey);
    if !level.Whole? && q != at {
      SwappedNames(level.children);
      if |q| > |at| && q[|at|] in NameSet(level.children) {
        BelowIsLower(roots, itemKey, q[|at|]);
        SwappedKids(level.children, q[|at|]);
        SwappedWalk(Below(level.children, q[|at|]), at + [q[|at|]], itemKey, q);
      }
      SwappedBelow(roots, at, itemKey, q);
    }
  }

  lemma SwappedBelow(roots: Roots, at: Path, itemKey: ItemKey, q: Path)
    requires |roots| == 3 && q != at && !LevelOf(roots, itemKey).Whole?
    requires LevelOf(Swap(roots), itemKey).children == Swap(LevelOf(roots, itemKey).children)
             && !LevelOf(Swap(roots), itemKey).Whole?
    requires NameSet(Swap(LevelOf(roots, itemKey).children)) == NameSet(LevelOf(roots, itemKey).children)
    requires |q| > |at| && q[|at|] in NameSet(LevelOf(roots, itemKey).children)
             ==> SwapsAt(Below(LevelOf(roots, itemKey).children, q[|at|]), at + [q[|at|]], itemKey, q)
    ensures SwapsAt(roots, at, itemKey, q)
  {
    var children := LevelOf(roots, itemKey).children;
    FoundAt(roots, at, itemKey, q);
    FoundAt(Swap(roots), at, itemKey, q);
    if |q| > |at| {
      SwappedKids(children, q[|at|]);
    }
  }

  lemma SwappedKids(children: seq<Option<map<string, Json>>>, k: string)
    requires |children| == 3
    ensures Below(Swap(children), k) == Swap(Below(children, k))
  {
  }

  lemma SwappedNames(children: seq<Option<map<string, Json>>>)
    requires |children| == 3
    ensures NameSet(Swap(children)) == NameSet(children)
  {
    forall n ensures n in NameSet(Swap(children)) <==> n in NameSet(children) {
      if n in NameSet(children) {
        var i :| 0 <= i < 3 && children[i].Some? && n in children[i].value;
        assert children[i] == Swap(children)[if i == 2 then 2 else 1 - i];
      }
    }
  }

  lemma {:induction false} FormByKeys(root: Json, at: Path, keyed: map<Path, KeyLists>, other: map<Path, KeyLists>,
          itemKey: ItemKey)
    requires keyed.Keys == other.Keys
    ensures Form(root, at, keyed, itemKey) == Form(root, at, other, itemKey)
    decreases Height(root), 1
  {
    if root.Obj? {
      forall k | k in root.fields
        ensures Form(root.fields[k], at + [k], keyed, itemKey) == Form(root.fields[k], at + [k], other, itemKey)
      {
        ChildIsLower(root, itemKey, k);
        FormByKeys(root.fields[k], at + [k], keyed, other, itemKey);
      }
    } else if root.Arr? && at in keyed && ItemsByKey(root.items, itemKey).Some? {
      ItemFormsByKeys(root, at, keyed, other, itemKey);
    }
  }

  lemma {:induction false} ItemFormsByKeys(root: Json, at: Path, keyed: map<Path, KeyLists>,
          other: map<Path, KeyLists>, itemKey: ItemKey)
    requires root.Arr? && keyed.Keys == other.Keys && at in keyed && ItemsByKey(root.items, itemKey).Some?
    ensures Form(root, at, keyed, itemKey) == Form(root, at, other, itemKey)
    decreases Height(root), 0
  {
    var children := ItemsByKey(root.items, itemKey).value.items;
    var (form, same) := (Form(root, at, keyed, itemKey), Form(root, at, other, itemKey));
    forall k | k in children ensures form.fields[k] == same.fields[k] {
      ChildIsLower(root, itemKey, k);
      FormByKeys(children[k], at + [k], keyed, other, itemKey);
    }
    assert form.fields == same.fields;
  }

  // Where two orders clash, both changes write the array.

  lemma ReorderSeen(a: seq<string>, b: seq<string>, shared: set<string>)
    requires shared <= Members(a) && shared <= Members(b) && Only(a, shared) != Only(b, shared)
    ensures Reorders(Some(a), Some(b)) && Reorders(Some(b), Some(a))
  {
    OnlyTwice(a, Members(b), shared);
    OnlyTwice(b, Members(a), shared);
  }

  /** Both sides reordered the array, or one did and the other removed it. */
  lemma OrderClashIs(lists: KeyLists)
    requires |lists| == 3 && KeptOrder(lists).None?
    ensures lists[0].Some? && (lists[1].Some? || lists[2].Some?)
    ensures lists[1].Some? ==> Reorders(lists[1], lists[0]) && Reorders(lists[0], lists[1])
    ensures lists[2].Some? ==> Reorders(lists[0], lists[2])
  {
    var (base, shared) := (lists[0].value, Shared(lists));
    if lists[1].Some? {
      ReorderSeen(lists[1].value, base, shared);
    }
    if lists[2].Some? {
      ReorderSeen(base, lists[2].value, shared);
    }
  }

  lemma ChainIsSwapped(itemKey: ItemKey, base: Json, ours: Json, theirs: Json)
    ensures KeyedFor(Some(itemKey), [ours, base, theirs])
         == KeyedArraysOf(Swap(ThreeRoots(base, ours, theirs)), [], itemKey)
  {
    assert AllPresent([ours, base, theirs]) == Swap(ThreeRoots(base, ours, theirs));
  }

  lemma SwappedRecord(keyed: map<Path, KeyLists>, swapped: map<Path, KeyLists>)
    requires forall q: Path ::
             (q in swapped <==> q in keyed) && (q in keyed ==> |keyed[q]| == 3 && swapped[q] == Swap(keyed[q]))
    ensures swapped.Keys == keyed.Keys && forall q | q in keyed :: |keyed[q]| == 3 && swapped[q] == Swap(keyed[q])
  {
  }

  lemma ComparedKeys(itemKey: ItemKey, base: Json, ours: Json, theirs: Json)
    ensures var (keyed, chain) := (KeyedIn(base, ours, theirs, itemKey), KeyedFor(Some(itemKey), [ours, base, theirs]));
            chain.Keys == keyed.Keys && forall q | q in keyed :: |keyed[q]| == 3 && chain[q] == Swap(keyed[q])
  {
    var roots := ThreeRoots(base, ours, theirs);
    var (keyed, swapped) := (KeyedArraysOf(roots, [], itemKey), KeyedArraysOf(Swap(roots), [], itemKey));
    ChainIsSwapped(itemKey, base, ours, theirs);
    forall q: Path
      ensures (q in swapped <==> q in keyed) && (q in keyed ==> |keyed[q]| == 3 && swapped[q] == Swap(keyed[q]))
    {
      SwappedWalk(roots, [], itemKey, q);
    }
    SwappedRecord(keyed, swapped);
  }

  /** The three forms that a comparison of the two changes makes, and what it records of their arrays. */
  lemma ComparedForms(itemKey: ItemKey, base: Json, ours: Json, theirs: Json)
    ensures var (keyed, chain) := (KeyedIn(base, ours, theirs, itemKey), KeyedFor(Some(itemKey), [ours, base, theirs]));
            && chain.Keys == keyed.Keys
            && (forall q | q in keyed :: |keyed[q]| == 3 && chain[q] == Swap(keyed[q]))
            && FormFor(Some(itemKey), chain, base) == Form(base, [], keyed, itemKey)
            && FormFor(Some(itemKey), chain, ours) == Form(ours, [], keyed, itemKey)
            && FormFor(Some(itemKey), chain, theirs) == Form(theirs, [], keyed, itemKey)
  {
    var (keyed, chain) := (KeyedIn(base, ours, theirs, itemKey), KeyedFor(Some(itemKey), [ours, base, theirs]));
    ComparedKeys(itemKey, base, ours, theirs);
    FormByKeys(base, [], chain, keyed, itemKey);
    FormByKeys(ours, [], chain, keyed, itemKey);
    FormByKeys(theirs, [], chain, keyed, itemKey);
  }

  /** What the two changes of a comparison write: of the change back to the base, and from the base on. */
  function BackPaths(ord: KeyOrder, itemKey: Option<ItemKey>, base: Json, ours: Json, theirs: Json): set<Path>
    requires base.Obj? && ours.Obj? && theirs.Obj?
  {
    ChangedPaths(ord, itemKey, [ours, base, theirs], 0)
  }

  function OnPaths(ord: KeyOrder, itemKey: Option<ItemKey>, base: Json, ours: Json, theirs: Json): set<Path>
    requires base.Obj? && ours.Obj? && theirs.Obj?
  {
    ChangedPaths(ord, itemKey, [ours, base, theirs], 1)
  }

  /** Every array of the three object forms is matched by key. */
  ghost predicate FreeForms(itemKey: ItemKey, base: Json, ours: Json, theirs: Json) {
    var keyed := KeyedIn(base, ours, theirs, itemKey);
    && ArrayFree(Form(base, [], keyed, itemKey)) && ArrayFree(Form(ours, [], keyed, itemKey))
    && ArrayFree(Form(theirs, [], keyed, itemKey))
  }

  /** Where an array's orders clash, each change reorders it or leads to its removal. */
  lemma ClashingOrderIsWritten(ord: KeyOrder, itemKey: ItemKey, base: Json, ours: Json, theirs: Json, q: Path)
        returns (p: Path, r: Path)
    requires base.Obj? && ours.Obj? && theirs.Obj? && FreeForms(itemKey, base, ours, theirs)
    requires var keyed := KeyedIn(base, ours, theirs, itemKey);
             q in keyed && |keyed[q]| == 3 && KeptOrder(keyed[q]).None?
    ensures p in BackPaths(ord, Some(itemKey), base, ours, theirs)
            && r in OnPaths(ord, Some(itemKey), base, ours, theirs)
    ensures Related(p, r)
  {
    var lists: KeyLists := KeyedIn(base, ours, theirs, itemKey)[q];
    OrderClashIs(lists);
    p, r := q, q;
    if lists[1].None? {
      p := RemovedBack(ord, itemKey, base, ours, theirs, q);
      ReorderIsOn(ord, itemKey, base, ours, theirs, q);
    } else {
      ReorderIsBack(ord, itemKey, base, ours, theirs, q);
      if lists[2].None? {
        r := RemovedOn(ord, itemKey, base, ours, theirs, q);
      } else {
        ReorderIsOn(ord, itemKey, base, ours, theirs, q);
      }
    }
  }

  lemma ReorderIsBack(ord: KeyOrder, itemKey: ItemKey, base: Json, ours: Json, theirs: Json, q: Path)
    requires base.Obj? && ours.Obj? && theirs.Obj?
    requires var keyed := KeyedIn(base, ours, theirs, itemKey);
             q in keyed && |keyed[q]| == 3 && Reorders(keyed[q][1], keyed[q][0])
    ensures q in BackPaths(ord, Some(itemKey), base, ours, theirs)
  {
    ComparedForms(itemKey, base, ours, theirs);
  }

  lemma ReorderIsOn(ord: KeyOrder, itemKey: ItemKey, base: Json, ours: Json, theirs: Json, q: Path)
    requires base.Obj? && ours.Obj? && theirs.Obj?
    requires var keyed := KeyedIn(base, ours, theirs, itemKey);
             q in keyed && |keyed[q]| == 3 && Reorders(keyed[q][0], keyed[q][2])
    ensures q in OnPaths(ord, Some(itemKey), base, ours, theirs)
  {
    ComparedForms(itemKey, base, ours, theirs);
  }

  lemma RemovedBack(ord: KeyOrder, itemKey: ItemKey, base: Json, ours: Json, theirs: Json, q: Path) returns (p: Path)
    requires base.Obj? && ours.Obj? && theirs.Obj? && FreeForms(itemKey, base, ours, theirs)
    requires var keyed := KeyedIn(base, ours, theirs, itemKey);
             q in keyed && |keyed[q]| == 3 && keyed[q][0].Some? && keyed[q][1].None?
    ensures p in BackPaths(ord, Some(itemKey), base, ours, theirs) && p <= q
  {
    var (keyed, roots) := (KeyedIn(base, ours, theirs, itemKey), ThreeRoots(base, ours, theirs));
    var op := Removal(ord, roots, keyed, itemKey, q, 1);
    var back := ChangeBack(ord, Form(base, [], keyed, itemKey), Form(ours, [], keyed, itemKey), op);
    EditIsBack(ord, itemKey, base, ours, theirs, back);
    p := back.path;
  }

  lemma EditIsBack(ord: KeyOrder, itemKey: ItemKey, base: Json, ours: Json, theirs: Json, op: Op)
    requires base.Obj? && ours.Obj? && theirs.Obj?
    requires var keyed := KeyedIn(base, ours, theirs, itemKey);
             op in Diff(ord, Form(ours, [], keyed, itemKey), Form(base, [], keyed, itemKey))
    ensures op.path in BackPaths(ord, Some(itemKey), base, ours, theirs)
  {
    ComparedForms(itemKey, base, ours, theirs);
  }

  lemma RemovedOn(ord: KeyOrder, itemKey: ItemKey, base: Json, ours: Json, theirs: Json, q: Path) returns (r: Path)
    requires base.Obj? && ours.Obj? && theirs.Obj? && FreeForms(itemKey, base, ours, theirs)
    requires var keyed := KeyedIn(base, ours, theirs, itemKey);
             q in keyed && |keyed[q]| == 3 && keyed[q][0].Some? && keyed[q][2].None?
    ensures r in OnPaths(ord, Some(itemKey), base, ours, theirs) && r <= q
  {
    var (keyed, roots) := (KeyedIn(base, ours, theirs, itemKey), ThreeRoots(base, ours, theirs));
    ComparedForms(itemKey, base, ours, theirs);
    var op := Removal(ord, roots, keyed, itemKey, q, 2);
    r := op.path;
  }

  lemma Removal(ord: KeyOrder, roots: Roots, keyed: map<Path, KeyLists>, itemKey: ItemKey, q: Path, i: nat)
        returns (op: Op)
    requires Walked(roots, [], keyed, itemKey) && q in keyed && 0 < i < 3 && |keyed[q]| == 3 && keyed[q][0].Some?
             && keyed[q][i].None?
    requires roots[0].Some? && roots[0].value.Obj? && roots[i].Some? && roots[i].value.Obj?
    requires ArrayFree(Form(roots[0].value, [], keyed, itemKey)) && ArrayFree(Form(roots[i].value, [], keyed, itemKey))
    ensures op in Diff(ord, Form(roots[0].value, [], keyed, itemKey), Form(roots[i].value, [], keyed, itemKey))
            && op.path <= q
  {
    assert q[0..] == q;
    ListedIsThere(roots, [], keyed, itemKey, q, 0);
    ListedIsThere(roots, [], keyed, itemKey, q, i);
    op := LossIsWritten(ord, Form(roots[0].value, [], keyed, itemKey), Form(roots[i].value, [], keyed, itemKey), q);
  }

  /** Where the contents clash, each change writes a path, and one leads to the other. */
  lemma ClashIsWritten(ord: KeyOrder, itemKey: Option<ItemKey>, base: Json, ours: Json, theirs: Json)
        returns (p: Path, r: Path)
    requires base.Obj? && ours.Obj? && theirs.Obj?
    requires var keyed := KeyedFor(itemKey, [ours, base, theirs]);
             var (b, o, t) := (FormFor(itemKey, keyed, base), FormFor(itemKey, keyed, ours),
               FormFor(itemKey, keyed, theirs));
             ArrayFree(b) && ArrayFree(o) && ThreeWayObject(b, o, t).Clash?
    ensures p in BackPaths(ord, itemKey, base, ours, theirs) && r in OnPaths(ord, itemKey, base, ours, theirs)
    ensures Related(p, r)
  {
    var keyed := KeyedFor(itemKey, [ours, base, theirs]);
    var (b, o, t) := (FormFor(itemKey, keyed, base), FormFor(itemKey, keyed, ours), FormFor(itemKey, keyed, theirs));
    var mine, other := ClashIsRelated(ord, b, o, t);
    var back := ChangeBack(ord, b, o, mine);
    p, r := back.path, other.path;
  }

  /** No path that the change from `ours` back to `base` writes leads to or into one that the other change writes. */
  ghost predicate UnrelatedChanges(ord: KeyOrder, itemKey: Option<ItemKey>, base: Json, ours: Json, theirs: Json)
    requires base.Obj? && ours.Obj? && theirs.Obj?
  {
    Unrelated(BackPaths(ord, itemKey, base, ours, theirs), OnPaths(ord, itemKey, base, ours, theirs))
  }

  /** Every array of the three roots is matched by key, or there is none. */
  predicate NoneByIndex(itemKey: Option<ItemKey>, base: Json, ours: Json, theirs: Json) {
    var keyed := KeyedFor(itemKey, [ours, base, theirs]);
    && ArrayFree(FormFor(itemKey, keyed, base)) && ArrayFree(FormFor(itemKey, keyed, ours))
    && ArrayFree(FormFor(itemKey, keyed, theirs))
  }

  lemma UnrelatedContents(ord: KeyOrder, itemKey: Option<ItemKey>, base: Json, ours: Json, theirs: Json)
    requires base.Obj? && ours.Obj? && theirs.Obj? && NoneByIndex(itemKey, base, ours, theirs)
    requires UnrelatedChanges(ord, itemKey, base, ours, theirs)
    ensures var keyed := KeyedFor(itemKey, [ours, base, theirs]);
            ThreeWayObject(FormFor(itemKey, keyed, base), FormFor(itemKey, keyed, ours),
              FormFor(itemKey, keyed, theirs)).Holds?
  {
    var keyed := KeyedFor(itemKey, [ours, base, theirs]);
    if ThreeWayObject(FormFor(itemKey, keyed, base), FormFor(itemKey, keyed, ours),
      FormFor(itemKey, keyed, theirs)).Clash? {
      var p, r := ClashIsWritten(ord, itemKey, base, ours, theirs);
      assert false;
    }
  }

  lemma UnrelatedOrdersMerge(ord: KeyOrder, itemKey: ItemKey, base: Json, ours: Json, theirs: Json)
    requires base.Obj? && ours.Obj? && theirs.Obj? && FreeForms(itemKey, base, ours, theirs)
    requires UnrelatedChanges(ord, Some(itemKey), base, ours, theirs)
    ensures !OrderClash(KeyedIn(base, ours, theirs, itemKey))
  {
    var keyed := KeyedIn(base, ours, theirs, itemKey);
    if OrderClash(keyed) {
      var q: Path :| q in keyed && KeptOrder(keyed[q]).None?;
      var p, r := ClashingOrderIsWritten(ord, itemKey, base, ours, theirs, q);
      assert false;
    }
  }

  lemma UnrelatedByKey(ord: KeyOrder, itemKey: ItemKey, base: Json, ours: Json, theirs: Json)
    requires base.Obj? && ours.Obj? && theirs.Obj? && NoneByIndex(Some(itemKey), base, ours, theirs)
    requires UnrelatedChanges(ord, Some(itemKey), base, ours, theirs)
    ensures !ReplayByKey(ord, base, ours, theirs, itemKey).Conflict?
  {
    ComparedForms(itemKey, base, ours, theirs);
    UnrelatedContents(ord, Some(itemKey), base, ours, theirs);
    UnrelatedOrdersMerge(ord, itemKey, base, ours, theirs);
    ReplayByKeyIsThreeWay(ord, base, ours, theirs, itemKey);
    RefusesWithTheirs(ord, Some(itemKey), base, ours, theirs);
  }

  lemma UnrelatedPlain(ord: KeyOrder, base: Json, ours: Json, theirs: Json)
    requires base.Obj? && ours.Obj? && theirs.Obj? && NoneByIndex(None, base, ours, theirs)
    requires UnrelatedChanges(ord, None, base, ours, theirs)
    ensures !ReplayEdit(ord, base, ours, theirs).Conflict?
  {
    UnrelatedContents(ord, None, base, ours, theirs);
    ReplayIsThreeWay(ord, base, ours, theirs);
  }

  /** Two changes merge when no path one writes leads to or into one the other writes, reorders included. */
  lemma UnrelatedPathsMerge(ord: KeyOrder, itemKey: Option<ItemKey>, base: Json, ours: Json, theirs: Json)
    requires base.Obj? && ours.Obj? && theirs.Obj? && NoneByIndex(itemKey, base, ours, theirs)
    requires Unrelated(ChangedPaths(ord, itemKey, [ours, base, theirs], 0),
             ChangedPaths(ord, itemKey, [ours, base, theirs], 1))
    ensures !Reconcile(ord, itemKey, base, ours, Some(theirs)).Conflict?
  {
    match itemKey
    case None => UnrelatedPlain(ord, base, ours, theirs);
    case Some(key) => UnrelatedByKey(ord, key, base, ours, theirs);
  }
}
