/** What an edit of arrays that one id field keys leaves on a newer root: all of it, item order included, or nothing. */
module EditedOrders {
  import opened Options
  import opened Json
  import opened JsonPatch
  import opened ThreeWayMerge
  import opened KeyOrders
  import opened KeyedArrays
  import opened ReplayByKeys
  import opened Reconciliation
  import opened KeyedEdits

  /** Every root holds the array. */
  predicate HeldByAll(lists: KeyLists) {
    |lists| == 3 && lists[0].Some? && lists[1].Some? && lists[2].Some?
  }

  /** The merged array at the address lists its items in the merged order. */
  lemma RemadeListHere(roots: Roots, at: Path, keyed: map<Path, KeyLists>, field: string, m: Json)
        returns (order: seq<string>)
    requires Replayable(roots, at, keyed, ByField(field)) && Merges(roots, ByField(field), Some(m))
    requires at in keyed && HeldByAll(keyed[at])
    ensures var again := KeyedArraysOf(Remade(roots, Some(m), at, KeptArrays(keyed)), at, ByField(field));
            at in again && again[at] == [keyed[at][0], keyed[at][1], Some(order)]
    ensures OrderRule(keyed[at], order)
  {
    WalkedHere(roots, at, keyed, ByField(field));
    KidMerges(roots, ByField(field), m, "");
    RemadeItems(roots, at, keyed, field, m);
    var lists: KeyLists := keyed[at];
    order := ArrangedKeys(m.fields.Keys, lists, KeptOrder(lists).value);
    MergedOrder(roots, ByField(field), m);
    forall k | k in Shared(lists) ensures k in m.fields {
      MergeKeepsKey(roots, ByField(field), m, k);
    }
    SharedOrder(lists, m.fields.Keys);
  }

  lemma ListedKidThere(roots: Roots, at: Path, keyed: map<Path, KeyLists>, itemKey: ItemKey, q: Path, i: nat)
    requires Walked(roots, at, keyed, itemKey) && !LevelOf(roots, itemKey).Whole?
    requires at <= q && q != at && q in keyed && i < 3 && |keyed[q]| == 3 && keyed[q][i].Some?
    ensures |q| > |at| && Kids(roots, itemKey, q[|at|])[i].Some?
  {
    ListedIsThere(roots, at, keyed, itemKey, q, i);
    NextStep(at, q);
    KidForm(roots, at, keyed, itemKey, i, q[|at|]);
  }

  /** What the replay made lists the items of an array every root holds in the order that the rule says. */
  lemma {:induction false} RemadeList(roots: Roots, at: Path, keyed: map<Path, KeyLists>, field: string, m: Json,
          q: Path)
      returns (order: seq<string>)
    requires Replayable(roots, at, keyed, ByField(field)) && Merges(roots, ByField(field), Some(m))
    requires at <= q && q in keyed && HeldByAll(keyed[q])
    ensures var again := KeyedArraysOf(Remade(roots, Some(m), at, KeptArrays(keyed)), at, ByField(field));
            q in again && again[q] == [keyed[q][0], keyed[q][1], Some(order)]
    ensures OrderRule(keyed[q], order)
    decreases Tallest(roots)
  {
    if q == at {
      order := RemadeListHere(roots, at, keyed, field, m);
    } else {
      var (itemKey, k) := (ByField(field), q[|at|]);
      FoundAt(roots, at, itemKey, q);
      ListedKidThere(roots, at, keyed, itemKey, q, 0);
      ListedKidThere(roots, at, keyed, itemKey, q, 1);
      ListedKidThere(roots, at, keyed, itemKey, q, 2);
      ReplayableKid(roots, at, keyed, itemKey, 0, k);
      MergedKidThere(roots, itemKey, m, k);
      NextStep(at, q);
      order := RemadeList(Kids(roots, itemKey, k), at + [k], keyed, field, m.fields[k], q);
      RemadeListAbove(roots, at, keyed, field, m, q);
    }
  }

  lemma MergedKidThere(roots: Roots, itemKey: ItemKey, m: Json, k: string)
    requires Merges(roots, itemKey, Some(m)) && !LevelOf(roots, itemKey).Whole?
    requires Kids(roots, itemKey, k)[1].Some? && Kids(roots, itemKey, k)[2].Some?
    ensures m.Obj? && k in m.fields && Merges(Kids(roots, itemKey, k), itemKey, Some(m.fields[k]))
  {
    KidMerges(roots, itemKey, m, k);
    var kids := Kids(roots, itemKey, k);
    MergePresence(FullOf(kids[0], itemKey), FullOf(kids[1], itemKey), FullOf(kids[2], itemKey));
  }

  /** What a walk finds below the name of some root's child, it finds. */
  lemma FoundAbove(roots: Roots, at: Path, itemKey: ItemKey, i: nat, q: Path)
    requires !LevelOf(roots, itemKey).Whole? && |q| > |at| && i < |roots| && Kids(roots, itemKey, q[|at|])[i].Some?
    requires q in WalkBelow(roots, at, itemKey, q[|at|])
    ensures q in KeyedArraysOf(roots, at, itemKey)
    ensures KeyedArraysOf(roots, at, itemKey)[q] == WalkBelow(roots, at, itemKey, q[|at|])[q]
  {
    KidNamed(roots, itemKey, i, q[|at|]);
    FoundAt(roots, at, itemKey, q);
  }

  lemma RemadeListAbove(roots: Roots, at: Path, keyed: map<Path, KeyLists>, field: string, m: Json, q: Path)
    requires Replayable(roots, at, keyed, ByField(field)) && Merges(roots, ByField(field), Some(m))
    requires !LevelOf(roots, ByField(field)).Whole? && |q| > |at| && m.Obj? && q[|at|] in m.fields
    requires Kids(roots, ByField(field), q[|at|])[0].Some?
    requires var k := q[|at|];
             q in KeyedArraysOf(Remade(Kids(roots, ByField(field), k), Some(m.fields[k]), at + [k], KeptArrays(keyed)),
               at + [k], ByField(field))
    ensures var (k, again) := (q[|at|],
            KeyedArraysOf(Remade(roots, Some(m), at, KeptArrays(keyed)), at, ByField(field)));
            && q in again
            && again[q]
              == KeyedArraysOf(Remade(Kids(roots, ByField(field), k), Some(m.fields[k]), at + [k], KeptArrays(keyed)),
                                         at + [k], ByField(field))[q]
  {
    RemadeKid(roots, at, keyed, field, m, q[|at|]);
    FoundAbove(Remade(roots, Some(m), at, KeptArrays(keyed)), at, ByField(field), 0, q);
  }

  /** The items every root holds, in the order of one of them. */
  function SharedIn(lists: KeyLists, i: nat): seq<string>
    requires HeldByAll(lists) && i < 3
  {
    Only(lists[i].value, Shared(lists))
  }

  /** The order an edit leaves an array in: the user's, where the user reordered it, else the root's. */
  ghost predicate OrderLands(lists: KeyLists, result: KeyLists)
    requires HeldByAll(lists)
  {
    && |result| == 3 && result[2].Some?
    && Only(result[2].value, Shared(lists))
      == SharedIn(lists, if SharedIn(lists, 1) != SharedIn(lists, 0) then 1 else 2)
  }

  lemma RuleLands(lists: KeyLists, order: seq<string>)
    requires HeldByAll(lists) && KeptOrder(lists).Some? && OrderRule(lists, order)
    ensures OrderLands(lists, [lists[0], lists[1], Some(order)])
  {
  }

  lemma MergedOrderLands(ord: KeyOrder, before: Json, after: Json, root: Json, field: string, q: Path)
    requires before.Obj? && after.Obj? && root.Obj? && KeyedThroughout(field, before, after, root)
    requires ReplayByKey(ord, before, after, root, ByField(field)).Merged?
    requires var keyed := KeyedIn(before, after, root, ByField(field)); q in keyed && HeldByAll(keyed[q])
    ensures var made := ReplayByKey(ord, before, after, root, ByField(field)).merged;
            && q in KeyedIn(before, after, made, ByField(field))
            && OrderLands(KeyedIn(before, after, root, ByField(field))[q],
              KeyedIn(before, after, made, ByField(field))[q])
  {
    var (itemKey, roots) := (ByField(field), ThreeRoots(before, after, root));
    var keyed := KeyedIn(before, after, root, itemKey);
    var m := MadeFrom(ord, before, after, root, field);
    assert [] <= q;
    var order := RemadeList(roots, [], keyed, field, m, q);
    RuleLands(keyed[q], order);
  }

  /** The edit's values at every path it writes, items addressed by key. */
  ghost predicate HoldsEditById(ord: KeyOrder, field: string, before: Json, after: Json, result: Json)
    requires before.Obj? && after.Obj?
  {
    var (b, o) := (FullForm(before, ByField(field)), FullForm(after, ByField(field)));
    forall op | op in Diff(ord, b, o) ::
      Get(FullForm(result, ByField(field)), op.path) == if op.Remove? then None else Get(o, op.path)
  }

  /**
   * In every array that all three hold, the order of the items they share: the user's where the user reordered them.
   */
  ghost predicate HoldsOrderById(field: string, before: Json, after: Json, root: Json, result: Json) {
    var (keyed, again) := (KeyedIn(before, after, root, ByField(field)),
      KeyedIn(before, after, result, ByField(field)));
    forall q | q in keyed && HeldByAll(keyed[q]) :: q in again && OrderLands(keyed[q], again[q])
  }

  /**
   * With every array keyed by one id field an edit lands whole or not at all: the root as it was, or with the edit's
   * value at every path it writes and its order in every array it reorders.
   */
  lemma EditRootWholeById(ord: KeyOrder, before: Json, after: Json, root: Json, field: string)
    requires before.Obj? && after.Obj? && root.Obj? && KeyedThroughout(field, before, after, root)
    ensures var result := EditRoot(ord, Some(ByField(field)), before, after, root);
            || result == root
            || (HoldsEditById(ord, field, before, after, result) && HoldsOrderById(field, before, after, root, result))
  {
    if before != after && ReplayByKey(ord, before, after, root, ByField(field)).Merged? {
      MergeHoldsById(ord, before, after, root, field);
      OrdersLand(ord, before, after, root, field);
    }
  }

  lemma OrdersLand(ord: KeyOrder, before: Json, after: Json, root: Json, field: string)
    requires before.Obj? && after.Obj? && root.Obj? && KeyedThroughout(field, before, after, root)
    requires ReplayByKey(ord, before, after, root, ByField(field)).Merged?
    ensures HoldsOrderById(field, before, after, root, ReplayByKey(ord, before, after, root, ByField(field)).merged)
  {
    var made := ReplayByKey(ord, before, after, root, ByField(field)).merged;
    forall q | q in KeyedIn(before, after, root, ByField(field))
      && HeldByAll(KeyedIn(before, after, root, ByField(field))[q])
      ensures q in KeyedIn(before, after, made, ByField(field))
      ensures OrderLands(KeyedIn(before, after, root, ByField(field))[q],
              KeyedIn(before, after, made, ByField(field))[q])
    {
      MergedOrderLands(ord, before, after, root, field, q);
    }
  }

  lemma MergeHoldsById(ord: KeyOrder, before: Json, after: Json, root: Json, field: string)
    requires before.Obj? && after.Obj? && root.Obj? && KeyedThroughout(field, before, after, root)
    requires ReplayByKey(ord, before, after, root, ByField(field)).Merged?
    ensures HoldsEditById(ord, field, before, after, ReplayByKey(ord, before, after, root, ByField(field)).merged)
  {
    ReplayMakesMerge(ord, before, after, root, field);
    var (b, o, t) := (FullForm(before, ByField(field)), FullForm(after, ByField(field)),
      FullForm(root, ByField(field)));
    MergeHoldsEdits(ord, b, o, t);
  }
}
