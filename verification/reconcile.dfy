/** Reconciling an edit with a refetched root, and editing by replay. */
module Reconciliation {
  import opened Options
  import opened Listings
  import opened Json
  import opened JsonPatch
  import opened PatchMerge
  import opened PatchRoundTrip
  import opened Landings
  import opened MergeLaws
  import opened ThreeWayMerge
  import opened KeyOrders
  import opened KeyedArrays
  import opened ReplayByKeys

  function ReplayWith(ord: KeyOrder, itemKey: Option<ItemKey>, base: Json, ours: Json, theirs: Json): Outcome
    requires base.Obj? && ours.Obj?
  {
    match itemKey
    case Some(key) => ReplayByKey(ord, base, ours, theirs, key)
    case None => ReplayEdit(ord, base, ours, theirs)
  }

  /** The reconcile of one conflict: `theirs` is the refetch, `None` when it produced nothing. */
  function Reconcile(ord: KeyOrder, itemKey: Option<ItemKey>, base: Json, ours: Json, theirs: Option<Json>): Outcome
    requires base.Obj? && ours.Obj?
  {
    if Diff(ord, base, ours) == [] then NoOp
    else if theirs.None? then Unavailable
    else ReplayWith(ord, itemKey, base, ours, theirs.value)
  }

  /**
   * Nothing is replayed exactly for a root that equals its base, and a refetch of nothing is never taken for a root.
   */
  lemma ReconcileStatus(ord: KeyOrder, itemKey: Option<ItemKey>, base: Json, ours: Json, theirs: Option<Json>)
    requires base.Obj? && ours.Obj?
    ensures Reconcile(ord, itemKey, base, ours, theirs).NoOp? <==> base == ours
    ensures Reconcile(ord, itemKey, base, ours, theirs).Unavailable? <==> base != ours && theirs.None?
    ensures var r := Reconcile(ord, itemKey, base, ours, theirs);
            r.Conflict? || r.AlreadyApplied? ==> theirs == Some(r.theirs)
  {
    DiffEmptyIffEqual(ord, base, ours);
    if theirs.Some? {
      RefusesWithTheirs(ord, itemKey, base, ours, theirs.value);
    }
  }

  lemma RefusesWithTheirs(ord: KeyOrder, itemKey: Option<ItemKey>, base: Json, ours: Json, theirs: Json)
    requires base.Obj? && ours.Obj?
    ensures var r := ReplayWith(ord, itemKey, base, ours, theirs);
            r.Merged? || r == AlreadyApplied(theirs) || r == Conflict(theirs)
  {
    match itemKey
    case Some(key) =>
    case None => ReplayIsFieldMerge(ord, base, ours, theirs);
  }

  /** A refetch that equals the base takes the whole edit, in every array and its item order too. */
  lemma ReconcileOnBase(ord: KeyOrder, itemKey: Option<ItemKey>, base: Json, ours: Json)
    requires base.Obj? && ours.Obj? && ours != base
    ensures Reconcile(ord, itemKey, base, ours, Some(base)) == Merged(ours)
  {
    DiffEmptyIffEqual(ord, base, ours);
    match itemKey
    case Some(key) => FastForwardByKey(ord, base, ours, key);
    case None => FastForward(ord, base, ours);
  }

  // Edits of a form, replayed on newer roots.

  /** The change of a form that edited `before` into `after`, on `root`. */
  function EditRoot(ord: KeyOrder, itemKey: Option<ItemKey>, before: Json, after: Json, root: Json): Json
    requires before.Obj? && after.Obj?
  {
    if before == after then root
    else
      var outcome := ReplayWith(ord, itemKey, before, after, root);
      if outcome.Merged? then outcome.merged else root
  }

  /** The change turns what the form edited into what it handed back, and leaves that as it is. */
  lemma EditRootEnds(ord: KeyOrder, itemKey: Option<ItemKey>, before: Json, after: Json)
    requires before.Obj? && after.Obj?
    ensures EditRoot(ord, itemKey, before, after, before) == after
    ensures EditRoot(ord, itemKey, before, after, after) == after
  {
    if before != after {
      match itemKey
      case Some(key) =>
        FastForwardByKey(ord, before, after, key);
        OnOursByKey(ord, before, after, key);
      case None =>
        FastForward(ord, before, after);
        ReplayOnOurs(ord, before, after);
    }
  }

  /** Without arrays, replaying an edit again changes nothing. */
  lemma EditRootOnce(ord: KeyOrder, before: Json, after: Json, root: Json)
    requires before.Obj? && after.Obj? && root.Obj? && ArrayFree(before) && ArrayFree(after) && ArrayFree(root)
    ensures var once := EditRoot(ord, None, before, after, root); EditRoot(ord, None, before, after, once) == once
  {
    ReplayIsThreeWay(ord, before, after, root);
    var merge := ThreeWayObject(before, after, root);
    if before != after && merge.Holds? && merge.value != Some(root) {
      var m := merge.value.value;
      ThreeWayHolds(before, after, root, "");
      assert ThreeWay(Some(before), Some(after), Some(root)) == Holds(Some(m));
      Idempotent(Some(before), Some(after), Some(root));
      MergeArrayFree(Some(before), Some(after), Some(root));
      ReplayIsThreeWay(ord, before, after, m);
    }
  }

  predicate FreeOfArrays(v: Option<Json>) {
    v.Some? ==> ArrayFree(v.value)
  }

  lemma {:induction false} MergeArrayFree(b: Option<Json>, o: Option<Json>, t: Option<Json>)
    requires FreeOfArrays(b) && FreeOfArrays(o) && FreeOfArrays(t) && ThreeWay(b, o, t).Holds?
    ensures FreeOfArrays(ThreeWay(b, o, t).value)
    decreases b.Some?, if b.Some? then b.value else Null
  {
    if IsObject(b) && IsObject(o) && IsObject(t) {
      var (x, y, z) := (b.value, o.value, t.value);
      ThreeWayHolds(x, y, z, "");
      var m := ThreeWayObject(x, y, z).value.value;
      forall k | k in m.fields ensures ArrayFree(m.fields[k]) {
        ThreeWayHolds(x, y, z, k);
        if k in x.fields {
          MergeArrayFree(Child(x, k), Child(y, k), Child(z, k));
        }
      }
    }
  }

  /**
   * An edit lands whole or not at all: the result is the root itself, or holds the edit's value at every path it
   * writes.
   */
  lemma EditRootWhole(ord: KeyOrder, before: Json, after: Json, root: Json)
    requires before.Obj? && after.Obj? && root.Obj? && ArrayFree(before) && ArrayFree(after) && ArrayFree(root)
    ensures var result := EditRoot(ord, None, before, after, root);
            || result == root
            || forall op | op in Diff(ord, before, after) ::
              Get(result, op.path) == if op.Remove? then None else Get(after, op.path)
  {
    ReplayIsThreeWay(ord, before, after, root);
    if EditRoot(ord, None, before, after, root) != root {
      MergeHoldsEdits(ord, before, after, root);
    }
  }

  lemma MergeHoldsEdit(before: Json, after: Json, root: Json, op: Op)
    requires before.Obj? && after.Obj? && root.Obj? && ArrayFree(before) && ThreeWayObject(before, after, root).Holds?
    requires Edits(before, after, op)
    ensures IsObject(ThreeWayObject(before, after, root).value)
    ensures Get(ThreeWayObject(before, after, root).value.value, op.path)
         == if op.Remove? then None else Get(after, op.path)
  {
    EditWrites(before, after, op);
    HoldsEveryEdit(before, after, root, op);
  }

  /** A merge holds the whole edit. */
  lemma MergeHoldsEdits(ord: KeyOrder, before: Json, after: Json, root: Json)
    requires before.Obj? && after.Obj? && root.Obj? && ArrayFree(before) && ThreeWayObject(before, after, root).Holds?
    ensures IsObject(ThreeWayObject(before, after, root).value)
    ensures var merged := ThreeWayObject(before, after, root).value.value;
            forall op | op in Diff(ord, before, after) ::
              Get(merged, op.path) == if op.Remove? then None else Get(after, op.path)
  {
    ThreeWayHolds(before, after, root, "");
    DiffEdits(ord, before, after);
    forall op | op in Diff(ord, before, after)
      ensures Get(ThreeWayObject(before, after, root).value.value, op.path)
           == if op.Remove? then None else Get(after, op.path)
    {
      MergeHoldsEdit(before, after, root, op);
    }
  }

  lemma {:induction false} EditWrites(x: Json, y: Json, op: Op)
    requires Edits(x, y, op)
    ensures !op.Test? && Get(y, op.path) == if op.Remove? then None else Some(op.value)
    decreases |op.path|
  {
    var k := op.path[0];
    assert op.path == [k] + op.path[1..];
    if |op.path| > 1 {
      EditWrites(Child(x, k).value, Child(y, k).value, Lowered(op));
    }
  }

  // What a change writes.

  /** Whether the keys both lists hold stand in another order in `after`. */
  predicate Reorders(before: Option<seq<string>>, after: Option<seq<string>>) {
    before.Some? && after.Some? && Only(before.value, Members(after.value)) != Only(after.value, Members(before.value))
  }

  function AllPresent(roots: seq<Json>): Roots {
    seq(|roots|, i requires 0 <= i < |roots| => Some(roots[i]))
  }

  /** The arrays a comparison of `roots` matches by key: none without an item key. */
  function KeyedFor(itemKey: Option<ItemKey>, roots: seq<Json>): map<Path, KeyLists> {
    if itemKey.Some? then KeyedArraysOf(AllPresent(roots), [], itemKey.value) else map[]
  }

  function FormFor(itemKey: Option<ItemKey>, keyed: map<Path, KeyLists>, root: Json): (form: Json)
    ensures root.Obj? ==> form.Obj?
  {
    if itemKey.Some? then Form(root, [], keyed, itemKey.value) else root
  }

  /** The pointers that the change from the `i`th root to the next writes, an item addressed by its key. */
  function ChangedPaths(ord: KeyOrder, itemKey: Option<ItemKey>, roots: seq<Json>, i: nat): set<Path>
    requires i + 1 < |roots| && forall r | r in roots :: r.Obj?
  {
    var keyed := KeyedFor(itemKey, roots);
    (set op | op in Diff(ord, FormFor(itemKey, keyed, roots[i]), FormFor(itemKey, keyed, roots[i + 1])) :: op.path)
    + (set q | q in keyed && i + 1 < |keyed[q]| && Reorders(keyed[q][i], keyed[q][i + 1]))
  }

  predicate Unrelated(these: set<Path>, those: set<Path>) {
    forall p, q | p in these && q in those :: !Related(p, q)
  }
}
