/** The replay with arrays matched by key: merged in object form, and made arrays again in the order kept. */
module ReplayByKeys {
  import opened Options
  import opened Listings
  import opened Json
  import opened JsonPatch
  import opened PatchMerge
  import opened Landings
  import opened FieldMerge
  import opened MergeLaws
  import opened ThreeWayMerge
  import opened KeyOrders
  import opened KeyedArrays

  function ThreeRoots(base: Json, ours: Json, theirs: Json): Roots {
    [Some(base), Some(ours), Some(theirs)]
  }

  ghost predicate AllLists(keyed: map<Path, KeyLists>) {
    forall q: Path | q in keyed :: Lists(keyed[q])
  }

  lemma ThreeLists(base: Json, ours: Json, theirs: Json, itemKey: ItemKey)
    ensures AllLists(KeyedArraysOf(ThreeRoots(base, ours, theirs), [], itemKey))
  {
    var roots := ThreeRoots(base, ours, theirs);
    forall q: Path | q in KeyedArraysOf(roots, [], itemKey) ensures Lists(KeyedArraysOf(roots, [], itemKey)[q]) {
      WalkLists(roots, [], itemKey, q);
    }
  }

  function KeyedIn(base: Json, ours: Json, theirs: Json, itemKey: ItemKey): (keyed: map<Path, KeyLists>)
    ensures AllLists(keyed)
  {
    ThreeLists(base, ours, theirs, itemKey);
    KeyedArraysOf(ThreeRoots(base, ours, theirs), [], itemKey)
  }

  predicate OrderClash(keyed: map<Path, KeyLists>)
    requires AllLists(keyed)
  {
    exists q: Path | q in keyed :: assert Lists(keyed[q]); KeptOrder(keyed[q]).None?
  }

  function KeptArrays(keyed: map<Path, KeyLists>): (arrays: map<Path, KeyedArray>)
    requires AllLists(keyed)
    requires !OrderClash(keyed)
    ensures arrays.Keys == keyed.Keys
    ensures forall q | q in arrays ::
            |arrays[q].lists| == 3 && arrays[q] == KeyedArray(keyed[q], KeptOrder(keyed[q]).value)
  {
    map q | q in keyed :: KeyedArray(keyed[q], KeptOrder(keyed[q]).value)
  }

  function ReplayByKey(ord: KeyOrder, base: Json, ours: Json, theirs: Json, itemKey: ItemKey): Outcome
    requires base.Obj? && ours.Obj?
  {
    var keyed := KeyedIn(base, ours, theirs, itemKey);
    var (keyedBase, keyedOurs, keyedTheirs) := (Form(base, [], keyed, itemKey), Form(ours, [], keyed, itemKey),
      Form(theirs, [], keyed, itemKey));
    if OrderClash(keyed) then Conflict(theirs)
    else Rearranged(Replay(keyedBase, keyedOurs, keyedTheirs, Diff(ord, keyedBase, keyedOurs)), keyedTheirs, theirs,
      KeptArrays(keyed))
  }

  /**
   * The outcome of the object forms' replay, with their arrays restored. What is applied in content may lack the user's
   * order.
   */
  function Rearranged(outcome: Outcome, keyedTheirs: Json, theirs: Json, arrays: map<Path, KeyedArray>): Outcome
    requires forall q | q in arrays :: |arrays[q].lists| == 3
  {
    match outcome
    case Conflict(_) => Conflict(theirs)
    case Merged(merged) => Merged(Restored(merged, [], arrays))
    case _ =>
      var reordered := Restored(keyedTheirs, [], arrays);
      if reordered == theirs then AlreadyApplied(theirs) else Merged(reordered)
  }

  // Each root again.

  lemma RootRestored(roots: Roots, itemKey: ItemKey, i: nat, arrays: map<Path, KeyedArray>)
    requires i < |roots| && roots[i].Some?
    requires var keyed := KeyedArraysOf(roots, [], itemKey);
             arrays.Keys == keyed.Keys && KeepsOrderOf([], keyed, arrays, i)
    ensures Restored(Form(roots[i].value, [], KeyedArraysOf(roots, [], itemKey), itemKey), [], arrays) == roots[i].value
  {
    var keyed := KeyedArraysOf(roots, [], itemKey);
    WalkFits(roots, [], itemKey, i, keyed);
    assert SameFrom([], keyed, keyed);
    RestoreForm(roots[i].value, [], keyed, itemKey, i, arrays);
  }

  /** Arranged in its own key order, each root comes back as it was. */
  lemma OwnOrderRestores(roots: Roots, itemKey: ItemKey, i: nat, arrays: map<Path, KeyedArray>)
    requires |roots| == 3 && i < 3 && roots[i].Some?
    requires arrays.Keys == KeyedArraysOf(roots, [], itemKey).Keys
    requires forall q | q in arrays :: |arrays[q].lists| == 3 && Lists(arrays[q].lists)
    requires var keyed := KeyedArraysOf(roots, [], itemKey);
             forall q: Path | q in keyed && |keyed[q]| == 3 && keyed[q][i].Some? :: arrays[q].kept == keyed[q][i].value
    ensures Restored(Form(roots[i].value, [], KeyedArraysOf(roots, [], itemKey), itemKey), [], arrays) == roots[i].value
  {
    var keyed: map<Path, KeyLists> := KeyedArraysOf(roots, [], itemKey);
    forall q: Path | q in keyed && i < |keyed[q]| && keyed[q][i].Some?
      ensures ArrangedKeys(Members(keyed[q][i].value), arrays[q].lists, arrays[q].kept) == keyed[q][i].value
    {
      WalkLists(roots, [], itemKey, q);
      KeepsKeptOrder(arrays[q].lists, arrays[q].kept);
    }
    RootRestored(roots, itemKey, i, arrays);
  }

  /** In arrays that the base and theirs hold alike, the order kept is the user's. */
  lemma KeepsOursOnBase(base: Json, ours: Json, itemKey: ItemKey)
    ensures var keyed := KeyedIn(base, ours, base, itemKey);
            && !OrderClash(keyed)
            && Restored(Form(ours, [], keyed, itemKey), [], KeptArrays(keyed)) == ours
  {
    var roots := ThreeRoots(base, ours, base);
    var keyed := KeyedIn(base, ours, base, itemKey);
    forall q | q in keyed
      ensures KeptOrder(keyed[q]).Some?
      ensures keyed[q][1].Some?
          ==> ArrangedKeys(Members(keyed[q][1].value), keyed[q], KeptOrder(keyed[q]).value) == keyed[q][1].value
    {
      EqualRootsListAlike(roots, [], itemKey, 0, 2, q, keyed[q]);
      if keyed[q][1].Some? {
        ArrangesOursOnBase(keyed[q]);
      }
    }
    RootRestored(roots, itemKey, 1, KeptArrays(keyed));
  }

  lemma RestoredOutcome(ord: KeyOrder, base: Json, ours: Json, theirs: Json, itemKey: ItemKey)
    requires base.Obj? && ours.Obj? && !OrderClash(KeyedIn(base, ours, theirs, itemKey))
    ensures var keyed := KeyedIn(base, ours, theirs, itemKey);
            ReplayByKey(ord, base, ours, theirs, itemKey)
            == Rearranged(ReplayEdit(ord, Form(base, [], keyed, itemKey), Form(ours, [], keyed, itemKey),
              Form(theirs, [], keyed, itemKey)),
                          Form(theirs, [], keyed, itemKey), theirs, KeptArrays(keyed))
  {
  }

  /**
   * On the base itself every edit lands whole, with the user's item order, in arrays matched by key and by index alike.
   */
  lemma FastForwardByKey(ord: KeyOrder, base: Json, ours: Json, itemKey: ItemKey)
    requires base.Obj? && ours.Obj? && ours != base
    ensures ReplayByKey(ord, base, ours, base, itemKey) == Merged(ours)
  {
    var keyed := KeyedIn(base, ours, base, itemKey);
    KeepsOursOnBase(base, ours, itemKey);
    RestoredOutcome(ord, base, ours, base, itemKey);
    var (keyedBase, keyedOurs) := (Form(base, [], keyed, itemKey), Form(ours, [], keyed, itemKey));
    if keyedBase == keyedOurs {
      MergeOnBase(ord, keyedBase, keyedOurs);
      ReplayIsFieldMerge(ord, keyedBase, keyedOurs, keyedBase);
    } else {
      FastForward(ord, keyedBase, keyedOurs);
    }
  }

  lemma KeepsTheirsOnOurs(base: Json, ours: Json, itemKey: ItemKey)
    ensures var keyed := KeyedIn(base, ours, ours, itemKey);
            && !OrderClash(keyed)
            && Restored(Form(ours, [], keyed, itemKey), [], KeptArrays(keyed)) == ours
  {
    var roots := ThreeRoots(base, ours, ours);
    var keyed := KeyedIn(base, ours, ours, itemKey);
    forall q | q in keyed
      ensures KeptOrder(keyed[q]).Some?
      ensures keyed[q][2].Some?
          ==> ArrangedKeys(Members(keyed[q][2].value), keyed[q], KeptOrder(keyed[q]).value) == keyed[q][2].value
    {
      EqualRootsListAlike(roots, [], itemKey, 1, 2, q, keyed[q]);
      KeepsOrderOnOurs(keyed[q]);
    }
    RootRestored(roots, itemKey, 2, KeptArrays(keyed));
  }

  /**
   * A refetch that holds the user's root is left as it is: the edit is there, unless it lengthens an array matched by
   * index.
   */
  lemma OnOursByKey(ord: KeyOrder, base: Json, ours: Json, itemKey: ItemKey)
    requires base.Obj? && ours.Obj?
    ensures var keyed := KeyedIn(base, ours, ours, itemKey);
            ReplayByKey(ord, base, ours, ours, itemKey)
            == if Grows(Form(base, [], keyed, itemKey), Form(ours, [], keyed, itemKey)) then Conflict(ours)
              else AlreadyApplied(ours)
  {
    var keyed := KeyedIn(base, ours, ours, itemKey);
    KeepsTheirsOnOurs(base, ours, itemKey);
    RestoredOutcome(ord, base, ours, ours, itemKey);
    ReplayOnOurs(ord, Form(base, [], keyed, itemKey), Form(ours, [], keyed, itemKey));
  }

  // What a replay merges to.

  /** Each merged item stands in its array once, and the items every root holds stand as the order rule says. */
  ghost predicate Placed(merged: Json, at: Path, keyed: map<Path, KeyLists>) {
    && (at in keyed ==>
          && merged.Obj? && Lists(keyed[at]) && KeptOrder(keyed[at]).Some?
          && var order := ArrangedKeys(merged.fields.Keys, keyed[at], KeptOrder(keyed[at]).value);
             && Listing(order, merged.fields.Keys)
             && OrderRule(keyed[at], order))
    && (merged.Obj? ==> forall k | k in merged.fields :: Placed(merged.fields[k], at + [k], keyed))
  }

  /** The shared items stand in the user's order where only the user reordered them, else in the refetch's. */
  ghost predicate OrderRule(lists: KeyLists, order: seq<string>)
    requires |lists| == 3
  {
    lists[0].Some? && lists[1].Some? && lists[2].Some? ==>
      var shared := Shared(lists);
      && shared <= Members(order)
      && Only(order, shared)
        == Only((if Only(lists[2].value, shared) == Only(lists[0].value, shared) then lists[1] else lists[2]).value,
          shared)
  }

  ghost predicate HoldsKeys(keys: set<string>, lists: KeyLists)
    requires |lists| == 3
  {
    && (forall k | k in keys :: k in ListOr(lists[1]) || k in ListOr(lists[2]))
    && (lists[0].Some? && lists[1].Some? && lists[2].Some? ==> Shared(lists) <= keys)
  }

  /** The keys of each merged array come from the two sides, and those every root holds are among them. */
  ghost predicate Covered(merged: Json, at: Path, keyed: map<Path, KeyLists>) {
    && (at in keyed ==> merged.Obj? && |keyed[at]| == 3 && HoldsKeys(merged.fields.Keys, keyed[at]))
    && (merged.Obj? ==> forall k | k in merged.fields :: Covered(merged.fields[k], at + [k], keyed))
  }

  lemma {:induction false} CoveredIsPlaced(merged: Json, at: Path, keyed: map<Path, KeyLists>)
    requires Covered(merged, at, keyed)
    requires forall q | q in keyed :: Lists(keyed[q]) && KeptOrder(keyed[q]).Some?
    ensures Placed(merged, at, keyed)
  {
    if at in keyed {
      var (lists, keys) := (keyed[at], merged.fields.Keys);
      PlacesEveryKeyOnce(lists, KeptOrder(lists).value, keys);
      if lists[0].Some? && lists[1].Some? && lists[2].Some? {
        SharedOrder(lists, keys);
      }
    }
    if merged.Obj? {
      forall k | k in merged.fields ensures Placed(merged.fields[k], at + [k], keyed) {
        CoveredIsPlaced(merged.fields[k], at + [k], keyed);
      }
    }
  }

  /** What the roots hold under `k`, with arrays matched by key. */
  function Kids(roots: Roots, itemKey: ItemKey, k: string): (kids: Roots)
    requires !LevelOf(roots, itemKey).Whole?
    ensures |kids| == |roots|
  {
    Below(LevelOf(roots, itemKey).children, k)
  }

  /** `keyed` is what a walk over `roots` finds, from `at` on. */
  ghost predicate Walked(roots: Roots, at: Path, keyed: map<Path, KeyLists>, itemKey: ItemKey) {
    |roots| == 3 && SameFrom(at, keyed, KeyedArraysOf(roots, at, itemKey))
  }

  lemma WalkedHere(roots: Roots, at: Path, keyed: map<Path, KeyLists>, itemKey: ItemKey)
    requires Walked(roots, at, keyed, itemKey)
    ensures at in keyed <==> LevelOf(roots, itemKey).Items?
    ensures at in keyed ==> keyed[at] == LevelOf(roots, itemKey).lists
  {
    assert at <= at;
    if at in KeyedArraysOf(roots, at, itemKey) {
      FoundHere(roots, at, itemKey);
    }
  }

  lemma FormItems(root: Json, at: Path, keyed: map<Path, KeyLists>, itemKey: ItemKey)
    requires root.Arr? && at in keyed && ItemsByKey(root.items, itemKey).Some?
    ensures Form(root, at, keyed, itemKey).Obj?
    ensures var (form, items) := (Form(root, at, keyed, itemKey), ItemsByKey(root.items, itemKey).value.items);
            && form.fields.Keys == items.Keys
            && forall k | k in items :: form.fields[k] == Form(items[k], at + [k], keyed, itemKey)
  {
  }

  lemma FormObject(root: Json, at: Path, keyed: map<Path, KeyLists>, itemKey: ItemKey)
    requires root.Obj?
    ensures var form := Form(root, at, keyed, itemKey);
            && form.fields.Keys == root.fields.Keys
            && forall k | k in root.fields :: form.fields[k] == Form(root.fields[k], at + [k], keyed, itemKey)
  {
  }

  lemma KidForm(roots: Roots, at: Path, keyed: map<Path, KeyLists>, itemKey: ItemKey, i: nat, k: string)
    requires Walked(roots, at, keyed, itemKey) && !LevelOf(roots, itemKey).Whole? && i < 3
    ensures roots[i].Some? ==> Form(roots[i].value, at, keyed, itemKey).Obj?
                               && Child(Form(roots[i].value, at, keyed, itemKey), k)
                                 == FormOf(Kids(roots, itemKey, k)[i], at + [k], keyed, itemKey)
    ensures roots[i].None? ==> Kids(roots, itemKey, k)[i].None?
  {
    KidAt(roots, itemKey, i, k);
    WalkedHere(roots, at, keyed, itemKey);
    if LevelOf(roots, itemKey).Items? {
      ItemsHeld(roots, itemKey, i);
      if roots[i].Some? {
        FormItems(roots[i].value, at, keyed, itemKey);
      }
    } else {
      FieldsHeld(roots, itemKey, i);
      if roots[i].Some? {
        FormObject(roots[i].value, at, keyed, itemKey);
      }
    }
  }

  lemma KidAt(roots: Roots, itemKey: ItemKey, i: nat, k: string)
    requires !LevelOf(roots, itemKey).Whole? && i < |roots|
    ensures var held := LevelOf(roots, itemKey).children[i];
            Kids(roots, itemKey, k)[i] == if held.Some? && k in held.value then Some(held.value[k]) else None
  {
  }

  lemma KidNamed(roots: Roots, itemKey: ItemKey, i: nat, k: string)
    requires !LevelOf(roots, itemKey).Whole? && i < |roots| && Kids(roots, itemKey, k)[i].Some?
    ensures k in NameSet(LevelOf(roots, itemKey).children)
  {
    var children := LevelOf(roots, itemKey).children;
    assert children[i].Some? && k in children[i].value;
  }

  lemma SomeKid(roots: Roots, itemKey: ItemKey, k: string) returns (n: nat)
    requires !LevelOf(roots, itemKey).Whole? && k in NameSet(LevelOf(roots, itemKey).children)
    ensures n < |roots| && Kids(roots, itemKey, k)[n].Some?
  {
    var children := LevelOf(roots, itemKey).children;
    n :| 0 <= n < |children| && children[n].Some? && k in children[n].value;
  }

  lemma KidWalked(roots: Roots, at: Path, keyed: map<Path, KeyLists>, itemKey: ItemKey, i: nat, k: string)
    requires Walked(roots, at, keyed, itemKey) && !LevelOf(roots, itemKey).Whole? && i < 3
             && Kids(roots, itemKey, k)[i].Some?
    ensures Walked(Kids(roots, itemKey, k), at + [k], keyed, itemKey)
    ensures Tallest(Kids(roots, itemKey, k)) < Tallest(roots)
  {
    assert k in NameSet(LevelOf(roots, itemKey).children);
    FoundBelow(roots, at, itemKey, keyed, k);
    BelowIsLower(roots, itemKey, k);
  }

  lemma LevelKeys(roots: Roots, itemKey: ItemKey, i: nat)
    requires LevelOf(roots, itemKey).Items? && i < |roots|
    ensures LevelOf(roots, itemKey).lists[i].Some? <==> roots[i].Some?
    ensures LevelOf(roots, itemKey).children[i].Some? <==> roots[i].Some?
    ensures roots[i].Some?
        ==> Members(LevelOf(roots, itemKey).lists[i].value) == LevelOf(roots, itemKey).children[i].value.Keys
  {
    assert LevelOf(roots, itemKey).lists[i] == ItemList(roots[i], itemKey);
    assert LevelOf(roots, itemKey).children[i] == ItemMap(roots[i], itemKey);
    assert roots[i] in roots;
  }

  ghost predicate ListedWhereThere(roots: Roots, at: Path, keyed: map<Path, KeyLists>, itemKey: ItemKey, q: Path,
          i: nat)
    requires |roots| == 3 && at <= q && q in keyed && i < 3
  {
    && |keyed[q]| == 3
    && (keyed[q][i].Some? <==> roots[i].Some? && Get(Form(roots[i].value, at, keyed, itemKey), q[|at|..]).Some?)
  }

  lemma NextStep(at: Path, q: Path)
    requires at <= q && q != at
    ensures |q| > |at| && at + [q[|at|]] <= q && q[|at|..] == [q[|at|]] + q[|at + [q[|at|]]|..]
    ensures q[|at|..][1..] == q[|at + [q[|at|]]|..]
  {
  }

  /** A root lists keys for an array exactly where its object form has the array's. */
  lemma {:induction false} ListedIsThere(roots: Roots, at: Path, keyed: map<Path, KeyLists>, itemKey: ItemKey, q: Path,
          i: nat)
    requires Walked(roots, at, keyed, itemKey) && at <= q && q in keyed && i < 3
    ensures ListedWhereThere(roots, at, keyed, itemKey, q, i)
    decreases Tallest(roots)
  {
    if q == at {
      WalkedHere(roots, at, keyed, itemKey);
      LevelKeys(roots, itemKey, i);
    } else {
      var k := q[|at|];
      FoundAt(roots, at, itemKey, q);
      var n := SomeKid(roots, itemKey, k);
      KidWalked(roots, at, keyed, itemKey, n, k);
      NextStep(at, q);
      ListedIsThere(Kids(roots, itemKey, k), at + [k], keyed, itemKey, q, i);
      ListedBelow(roots, at, keyed, itemKey, q, i);
    }
  }

  lemma ListedBelow(roots: Roots, at: Path, keyed: map<Path, KeyLists>, itemKey: ItemKey, q: Path, i: nat)
    requires Walked(roots, at, keyed, itemKey) && !LevelOf(roots, itemKey).Whole?
    requires at <= q && q != at && q in keyed && i < 3 && at + [q[|at|]] <= q
    requires ListedWhereThere(Kids(roots, itemKey, q[|at|]), at + [q[|at|]], keyed, itemKey, q, i)
    ensures ListedWhereThere(roots, at, keyed, itemKey, q, i)
  {
    var k := q[|at|];
    KidForm(roots, at, keyed, itemKey, i, k);
    NextStep(at, q);
  }

  lemma FormKeys(roots: Roots, at: Path, keyed: map<Path, KeyLists>, itemKey: ItemKey, i: nat)
    requires Walked(roots, at, keyed, itemKey) && !LevelOf(roots, itemKey).Whole? && i < 3 && roots[i].Some?
    ensures Form(roots[i].value, at, keyed, itemKey).Obj?
    ensures LevelOf(roots, itemKey).children[i].Some?
    ensures Form(roots[i].value, at, keyed, itemKey).fields.Keys == LevelOf(roots, itemKey).children[i].value.Keys
  {
    WalkedHere(roots, at, keyed, itemKey);
    if LevelOf(roots, itemKey).Items? {
      ItemsHeld(roots, itemKey, i);
      FormItems(roots[i].value, at, keyed, itemKey);
    } else {
      FieldsHeld(roots, itemKey, i);
    }
  }

  lemma ListedKeys(roots: Roots, at: Path, keyed: map<Path, KeyLists>, itemKey: ItemKey, i: nat)
    requires Walked(roots, at, keyed, itemKey) && at in keyed && i < 3
    ensures |keyed[at]| == 3 && (keyed[at][i].Some? <==> roots[i].Some?)
    ensures roots[i].Some? ==> Form(roots[i].value, at, keyed, itemKey).Obj?
    ensures roots[i].Some? ==> Members(keyed[at][i].value) == Form(roots[i].value, at, keyed, itemKey).fields.Keys
  {
    WalkedHere(roots, at, keyed, itemKey);
    LevelKeys(roots, itemKey, i);
    if roots[i].Some? {
      FormKeys(roots, at, keyed, itemKey, i);
    }
  }

  lemma {:induction false} CoversNothing(value: Json, at: Path, keyed: map<Path, KeyLists>)
    requires forall q | q in keyed :: !(at <= q)
    ensures Covered(value, at, keyed)
  {
    if value.Obj? {
      forall k | k in value.fields ensures Covered(value.fields[k], at + [k], keyed) {
        CoversNothing(value.fields[k], at + [k], keyed);
      }
    }
  }

  lemma WholeCoversNothing(roots: Roots, at: Path, keyed: map<Path, KeyLists>, itemKey: ItemKey, value: Json)
    requires Walked(roots, at, keyed, itemKey) && LevelOf(roots, itemKey).Whole?
    ensures Covered(value, at, keyed)
  {
    forall q | q in keyed ensures !(at <= q) {
      assert q !in KeyedArraysOf(roots, at, itemKey);
    }
    CoversNothing(value, at, keyed);
  }

  lemma {:induction false} FormCovered(roots: Roots, at: Path, keyed: map<Path, KeyLists>, itemKey: ItemKey, i: nat)
    requires Walked(roots, at, keyed, itemKey) && 0 < i < 3 && roots[i].Some?
    ensures Covered(Form(roots[i].value, at, keyed, itemKey), at, keyed)
    decreases Tallest(roots), 1
  {
    var form := Form(roots[i].value, at, keyed, itemKey);
    if LevelOf(roots, itemKey).Whole? {
      WholeCoversNothing(roots, at, keyed, itemKey, form);
    } else {
      if at in keyed {
        ListedKeys(roots, at, keyed, itemKey, i);
        SideHoldsKeys(form.fields.Keys, keyed[at], i);
      }
      FormKeys(roots, at, keyed, itemKey, i);
      forall k | k in form.fields ensures Covered(form.fields[k], at + [k], keyed) {
        FormKidCovered(roots, at, keyed, itemKey, i, k);
      }
    }
  }

  lemma {:induction false} FormKidCovered(roots: Roots, at: Path, keyed: map<Path, KeyLists>, itemKey: ItemKey, i: nat,
          k: string)
    requires Walked(roots, at, keyed, itemKey) && 0 < i < 3 && roots[i].Some? && !LevelOf(roots, itemKey).Whole?
    requires Form(roots[i].value, at, keyed, itemKey).Obj? && k in Form(roots[i].value, at, keyed, itemKey).fields
    ensures Covered(Form(roots[i].value, at, keyed, itemKey).fields[k], at + [k], keyed)
    decreases Tallest(roots), 0
  {
    var form := Form(roots[i].value, at, keyed, itemKey);
    KidForm(roots, at, keyed, itemKey, i, k);
    assert Child(form, k) == Some(form.fields[k]);
    KidWalked(roots, at, keyed, itemKey, i, k);
    FormCovered(Kids(roots, itemKey, k), at + [k], keyed, itemKey, i);
  }

  /** What a merge of three object forms covers. */
  lemma {:induction false} MergeCovered(ord: KeyOrder, roots: Roots, at: Path, keyed: map<Path, KeyLists>,
          itemKey: ItemKey, m: Json)
    requires Walked(roots, at, keyed, itemKey)
    requires MergeThere(ord, FormOf(roots[0], at, keyed, itemKey), FormOf(roots[1], at, keyed, itemKey),
             FormOf(roots[2], at, keyed, itemKey)) == Holds(Some(m))
    ensures Covered(m, at, keyed)
    decreases Tallest(roots), 2
  {
    var (b, o, t) := (FormOf(roots[0], at, keyed, itemKey), FormOf(roots[1], at, keyed, itemKey),
      FormOf(roots[2], at, keyed, itemKey));
    if LevelOf(roots, itemKey).Whole? {
      WholeCoversNothing(roots, at, keyed, itemKey, m);
    } else if b.Some? && o.Some? && t.Some? && o != b {
      ObjectMergeCovered(ord, roots, at, keyed, itemKey, m);
    } else {
      OneSideWins(ord, b, o, t, m);
      FormCovered(roots, at, keyed, itemKey, if o == Some(m) then 1 else 2);
    }
  }

  lemma OneSideWins(ord: KeyOrder, b: Option<Json>, o: Option<Json>, t: Option<Json>, m: Json)
    requires MergeThere(ord, b, o, t) == Holds(Some(m)) && (o == b || !(b.Some? && o.Some? && t.Some?))
    ensures o == Some(m) || t == Some(m)
  {
    if b.Some? && o.Some? && SameKind(b.value, o.value) {
      MergeStays(ord, b.value, o.value, t);
    }
  }

  /** The object forms of three roots that all hold the value, and that the user's edit changes, merge to `m`. */
  ghost predicate FormsMerge(ord: KeyOrder, roots: Roots, at: Path, keyed: map<Path, KeyLists>, itemKey: ItemKey,
          m: Json)
    requires |roots| == 3
  {
    && roots[0].Some? && roots[1].Some? && roots[2].Some?
    && var (b, o, t) := (Form(roots[0].value, at, keyed, itemKey), Form(roots[1].value, at, keyed, itemKey),
         Form(roots[2].value, at, keyed, itemKey));
       && b.Obj? && o.Obj? && t.Obj? && m.Obj?
       && forall k :: MergeField(ord, b, o, t, k) == Holds(Child(m, k))
  }

  lemma {:induction false} ObjectMergeCovered(ord: KeyOrder, roots: Roots, at: Path, keyed: map<Path, KeyLists>,
          itemKey: ItemKey, m: Json)
    requires Walked(roots, at, keyed, itemKey) && !LevelOf(roots, itemKey).Whole?
    requires roots[0].Some? && roots[1].Some? && roots[2].Some?
    requires FormOf(roots[1], at, keyed, itemKey) != FormOf(roots[0], at, keyed, itemKey)
    requires MergeThere(ord, FormOf(roots[0], at, keyed, itemKey), FormOf(roots[1], at, keyed, itemKey),
             FormOf(roots[2], at, keyed, itemKey)) == Holds(Some(m))
    ensures Covered(m, at, keyed)
    decreases Tallest(roots), 1
  {
    KidForm(roots, at, keyed, itemKey, 0, "");
    KidForm(roots, at, keyed, itemKey, 1, "");
    KidForm(roots, at, keyed, itemKey, 2, "");
    FieldsMerge(ord, Form(roots[0].value, at, keyed, itemKey), Form(roots[1].value, at, keyed, itemKey),
      Form(roots[2].value, at, keyed, itemKey), m);
    MergedKeys(ord, roots, at, keyed, itemKey, m);
    forall k | k in m.fields ensures Covered(m.fields[k], at + [k], keyed) {
      MergedKid(ord, roots, at, keyed, itemKey, m, k);
    }
  }

  lemma MergedKeys(ord: KeyOrder, roots: Roots, at: Path, keyed: map<Path, KeyLists>, itemKey: ItemKey, m: Json)
    requires Walked(roots, at, keyed, itemKey) && FormsMerge(ord, roots, at, keyed, itemKey, m)
    ensures at in keyed ==> |keyed[at]| == 3 && HoldsKeys(m.fields.Keys, keyed[at])
  {
    if at in keyed {
      ListedKeys(roots, at, keyed, itemKey, 0);
      ListedKeys(roots, at, keyed, itemKey, 1);
      ListedKeys(roots, at, keyed, itemKey, 2);
      MergeHoldsKeys(ord, Form(roots[0].value, at, keyed, itemKey), Form(roots[1].value, at, keyed, itemKey),
        Form(roots[2].value, at, keyed, itemKey), m, keyed[at]);
    }
  }

  lemma SideHoldsKeys(keys: set<string>, lists: KeyLists, i: nat)
    requires |lists| == 3 && 0 < i < 3 && lists[i].Some? && Members(lists[i].value) == keys
    ensures HoldsKeys(keys, lists)
  {
    assert forall k | k in keys :: k in Members(lists[i].value);
    assert forall k | k in lists[i].value :: k in Members(lists[i].value);
  }

  lemma MergeHoldsKeys(ord: KeyOrder, b: Json, o: Json, t: Json, m: Json, lists: KeyLists)
    requires b.Obj? && o.Obj? && t.Obj? && m.Obj? && forall k :: MergeField(ord, b, o, t, k) == Holds(Child(m, k))
    requires |lists| == 3 && lists[0].Some? && lists[1].Some? && lists[2].Some?
    requires Members(lists[0].value) == b.fields.Keys && Members(lists[1].value) == o.fields.Keys
             && Members(lists[2].value) == t.fields.Keys
    ensures HoldsKeys(m.fields.Keys, lists)
  {
    forall k | k in m.fields ensures k in ListOr(lists[1]) || k in ListOr(lists[2]) {
      MergedKey(ord, b, o, t, m, k);
      assert k in Members(lists[1].value) || k in Members(lists[2].value);
    }
    forall k | k in Shared(lists) ensures k in m.fields {
      assert k in Members(lists[0].value) && k in Members(lists[1].value) && k in Members(lists[2].value);
      MergedKey(ord, b, o, t, m, k);
    }
  }

  lemma MergedKey(ord: KeyOrder, b: Json, o: Json, t: Json, m: Json, k: string)
    requires b.Obj? && o.Obj? && t.Obj? && m.Obj? && MergeField(ord, b, o, t, k) == Holds(Child(m, k))
    ensures k in m.fields ==> k in o.fields || k in t.fields
    ensures k in b.fields && k in o.fields && k in t.fields ==> k in m.fields
  {
    if k in b.fields && k in o.fields && SameKind(b.fields[k], o.fields[k]) {
      MergeStays(ord, b.fields[k], o.fields[k], Child(t, k));
    }
  }

  lemma {:induction false} MergedKid(ord: KeyOrder, roots: Roots, at: Path, keyed: map<Path, KeyLists>,
          itemKey: ItemKey, m: Json, k: string)
    requires Walked(roots, at, keyed, itemKey) && !LevelOf(roots, itemKey).Whole?
    requires FormsMerge(ord, roots, at, keyed, itemKey, m) && k in m.fields
    ensures Covered(m.fields[k], at + [k], keyed)
    decreases Tallest(roots), 0
  {
    KidForm(roots, at, keyed, itemKey, 0, k);
    KidForm(roots, at, keyed, itemKey, 1, k);
    KidForm(roots, at, keyed, itemKey, 2, k);
    MergedKey(ord, Form(roots[0].value, at, keyed, itemKey), Form(roots[1].value, at, keyed, itemKey),
      Form(roots[2].value, at, keyed, itemKey), m, k);
    assert Child(m, k) == Some(m.fields[k]);
    var kids := Kids(roots, itemKey, k);
    var i := if kids[1].Some? then 1 else 2;
    KidWalked(roots, at, keyed, itemKey, i, k);
    MergeCovered(ord, kids, at + [k], keyed, itemKey, m.fields[k]);
  }

  /**
   * On all documents the replay conflicts exactly where the object forms' merge clashes or some array's order does;
   * else it makes that merge, with the arrays matched by key in the orders kept: each merged item once, and those all
   * roots hold by the order rule.
   */
  lemma ReplayByKeyIsMerge(ord: KeyOrder, base: Json, ours: Json, theirs: Json, itemKey: ItemKey)
    requires base.Obj? && ours.Obj?
    ensures var keyed := KeyedIn(base, ours, theirs, itemKey);
            var outcome := ReplayByKey(ord, base, ours, theirs, itemKey);
            var (b, o, t) := (Form(base, [], keyed, itemKey), Form(ours, [], keyed, itemKey),
              Form(theirs, [], keyed, itemKey));
            var merge := MergeSame(ord, b, o, Some(t));
            && (outcome == Conflict(theirs) <==> OrderClash(keyed) || merge.Clash?)
            && (!outcome.Conflict? ==>
                  && Kept(merge) && Placed(merge.value.value, [], keyed)
                  && Ends(outcome) == Some(Restored(merge.value.value, [], KeptArrays(keyed)))
                  && (outcome == AlreadyApplied(theirs)
                      <==> Settled(b, o, Some(t)) && Restored(t, [], KeptArrays(keyed)) == theirs))
  {
    var keyed := KeyedIn(base, ours, theirs, itemKey);
    var (b, o, t) := (Form(base, [], keyed, itemKey), Form(ours, [], keyed, itemKey), Form(theirs, [], keyed, itemKey));
    if !OrderClash(keyed) {
      RestoredOutcome(ord, base, ours, theirs, itemKey);
      ReplayIsFieldMerge(ord, b, o, t);
      if MergeSame(ord, b, o, Some(t)).Holds? {
        MergeIsPlaced(ord, base, ours, theirs, itemKey);
      }
    }
  }

  lemma MergeIsPlaced(ord: KeyOrder, base: Json, ours: Json, theirs: Json, itemKey: ItemKey)
    requires base.Obj? && ours.Obj? && !OrderClash(KeyedIn(base, ours, theirs, itemKey))
    requires var keyed := KeyedIn(base, ours, theirs, itemKey);
             MergeSame(ord, Form(base, [], keyed, itemKey), Form(ours, [], keyed, itemKey),
               Some(Form(theirs, [], keyed, itemKey))).Holds?
    ensures var keyed := KeyedIn(base, ours, theirs, itemKey);
            var merge := MergeSame(ord, Form(base, [], keyed, itemKey), Form(ours, [], keyed, itemKey),
              Some(Form(theirs, [], keyed, itemKey)));
            Kept(merge) && Placed(merge.value.value, [], keyed)
  {
    var keyed := KeyedIn(base, ours, theirs, itemKey);
    var (b, o, t) := (Form(base, [], keyed, itemKey), Form(ours, [], keyed, itemKey), Form(theirs, [], keyed, itemKey));
    var merge := MergeSame(ord, b, o, Some(t));
    MergeStays(ord, b, o, Some(t));
    assert MergeThere(ord, Some(b), Some(o), Some(t)) == Holds(Some(merge.value.value));
    MergeCovered(ord, ThreeRoots(base, ours, theirs), [], keyed, itemKey, merge.value.value);
    CoveredIsPlaced(merge.value.value, [], keyed);
  }

  /**
   * With every array of the three roots matched by key, the replay conflicts exactly where the object forms' merge
   * clashes or some array's order does; else it makes that merge, each array's items in the order kept.
   */
  lemma ReplayByKeyIsThreeWay(ord: KeyOrder, base: Json, ours: Json, theirs: Json, itemKey: ItemKey)
    requires base.Obj? && ours.Obj? && theirs.Obj?
    requires var keyed := KeyedIn(base, ours, theirs, itemKey);
             ArrayFree(Form(base, [], keyed, itemKey)) && ArrayFree(Form(ours, [], keyed, itemKey))
               && ArrayFree(Form(theirs, [], keyed, itemKey))
    ensures var keyed := KeyedIn(base, ours, theirs, itemKey);
            var (b, o, t) := (Form(base, [], keyed, itemKey), Form(ours, [], keyed, itemKey),
              Form(theirs, [], keyed, itemKey));
            && (ReplayByKey(ord, base, ours, theirs, itemKey) == Conflict(theirs)
              <==> OrderClash(keyed) || ThreeWayObject(b, o, t).Clash?)
            && (!ReplayByKey(ord, base, ours, theirs, itemKey).Conflict? ==>
                  && ThreeWayObject(b, o, t).Holds? && ThreeWayObject(b, o, t).value.Some?
                  && var m := ThreeWayObject(b, o, t).value.value;
                     && Placed(m, [], keyed)
                     && Ends(ReplayByKey(ord, base, ours, theirs, itemKey)) == Some(Restored(m, [], KeptArrays(keyed)))
                     && (ReplayByKey(ord, base, ours, theirs, itemKey) == AlreadyApplied(theirs)
                       <==> m == t && Restored(m, [], KeptArrays(keyed)) == theirs))
  {
    var keyed := KeyedIn(base, ours, theirs, itemKey);
    var (b, o, t) := (Form(base, [], keyed, itemKey), Form(ours, [], keyed, itemKey), Form(theirs, [], keyed, itemKey));
    FieldMergeIsThreeWay(ord, b, o, t);
    ReplayByKeyIsMerge(ord, base, ours, theirs, itemKey);
  }
}
