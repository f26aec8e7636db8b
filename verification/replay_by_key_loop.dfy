/** The replay with arrays matched by key, as it runs. */
module ReplayByKeyLoop {
  import opened Options
  import opened Json
  import opened JsonPatch
  import opened PatchMerge
  import opened PatchMergeLoops
  import opened KeyOrders
  import opened KeyedArrays
  import opened KeyedArrayLoops
  import opened ReplayByKeys

  /** The order each array keeps, `None` as soon as one has none. */
  method KeepOrders(keyed: map<Path, KeyLists>) returns (arrays: Option<map<Path, KeyedArray>>)
    requires AllLists(keyed)
    ensures arrays == if OrderClash(keyed) then None else Some(KeptArrays(keyed))
  {
    var kept: map<Path, KeyedArray>, todo := map[], keyed.Keys;
    while todo != {}
      invariant todo <= keyed.Keys && kept.Keys == keyed.Keys - todo
      invariant forall q: Path | q in kept ::
                Lists(keyed[q]) && KeptOrder(keyed[q]).Some?
                  && kept[q] == KeyedArray(keyed[q], KeptOrder(keyed[q]).value)
    {
      var pointer :| pointer in todo;
      assert Lists(keyed[pointer]);
      var order := KeptOrder(keyed[pointer]);
      if order.None? {
        return None;
      }
      kept := kept[pointer := KeyedArray(keyed[pointer], order.value)];
      todo := todo - {pointer};
    }
    assert kept == KeptArrays(keyed);
    arrays := Some(kept);
  }

  /** The object forms of the three roots, and the keys of each array matched by key. */
  method KeyedForms(base: Json, ours: Json, theirs: Json, itemKey: ItemKey)
    returns (keyedBase: Json, keyedOurs: Json, keyedTheirs: Json, lists: map<Path, KeyLists>)
    ensures lists == KeyedIn(base, ours, theirs, itemKey)
    ensures keyedBase == Form(base, [], lists, itemKey) && keyedOurs == Form(ours, [], lists, itemKey)
            && keyedTheirs == Form(theirs, [], lists, itemKey)
  {
    var keyed := new KeyedMap();
    var forms := WithArraysByKey(ThreeRoots(base, ours, theirs), [], itemKey, keyed);
    ThreeFormed(base, ours, theirs, itemKey, forms);
    lists := keyed.lists;
    NothingBefore(KeyedIn(base, ours, theirs, itemKey));
    keyedBase, keyedOurs, keyedTheirs := forms[0].value, forms[1].value, forms[2].value;
  }

  method ReplayRootsByKey(ord: KeyOrder, base: Json, ours: Json, theirs: Json, itemKey: ItemKey)
        returns (outcome: Outcome)
    requires base.Obj? && ours.Obj?
    ensures outcome == ReplayByKey(ord, base, ours, theirs, itemKey)
  {
    var keyedBase, keyedOurs, keyedTheirs, lists := KeyedForms(base, ours, theirs, itemKey);
    var arrays := KeepOrders(lists);
    if arrays.None? {
      return Conflict(theirs);
    }
    var merge := ReplayPatch(keyedBase, keyedOurs, keyedTheirs, Diff(ord, keyedBase, keyedOurs));
    outcome := Rearranged(merge, keyedTheirs, theirs, arrays.value);
  }

  lemma NothingBefore(lists: map<Path, KeyLists>)
    ensures map[] + lists == lists
  {
  }

  lemma ThreeFormed(base: Json, ours: Json, theirs: Json, itemKey: ItemKey, forms: Roots)
    requires Formed(forms, ThreeRoots(base, ours, theirs), [], itemKey)
    ensures var keyed := KeyedIn(base, ours, theirs, itemKey);
            forms == [Some(Form(base, [], keyed, itemKey)), Some(Form(ours, [], keyed, itemKey)),
              Some(Form(theirs, [], keyed, itemKey))]
  {
    assert forms[0] == FormOf(Some(base), [], KeyedArraysOf(ThreeRoots(base, ours, theirs), [], itemKey), itemKey);
  }
}
