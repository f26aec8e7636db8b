/**
 * What the default conflict resolver makes of a reconciled write: one step of the server's history that merges the
 * caller's edit onto the root it replaces, and holds both clients' edits but where the caller appends over a field.
 */
module NoLostUpdate {
  import opened Options
  import opened Json
  import opened JsonPatch
  import opened Landings
  import IndexedFields
  import opened FieldMerge
  import opened MergeLaws
  import opened ChangedKinds
  import opened ThreeWayMerge
  import opened KeyedArrays
  import opened Reconciliation
  import opened KeyedEdits
  import opened EditedOrders
  import opened ReconcileWrites
  import PatchMerge

  /** The default resolver: merges field by field, and refetches for every edit that changes something. */
  function Reconciling(ord: KeyOrder, itemKey: Option<ItemKey>): Resolver {
    Resolver((base: Document, ours: Document) => Diff(ord, base, ours) != [],
             (base: Document, ours: Document, theirs: Option<Json>) => Reconcile(ord, itemKey, base, ours, theirs))
  }

  /** The resolver that lets the last writer win. */
  function Force(): Resolver {
    Resolver((base: Document, ours: Document) => false,
      (base: Document, ours: Document, theirs: Option<Json>) => PatchMerge.Merged(ours))
  }

  /** Version `v + 1` of the server's history is the merge of the caller's whole edit onto version `v`. */
  predicate MergesAt(ord: KeyOrder, itemKey: Option<ItemKey>, roots: seq<Json>, base: Document, model: Document, v: nat)
  {
    v + 1 < |roots| && Reconcile(ord, itemKey, base, model, Some(roots[v])) == PatchMerge.Merged(roots[v + 1])
  }

  lemma ResolvedMerges(ord: KeyOrder, itemKey: Option<ItemKey>, w: Landing, roots: seq<Json>, base: Document,
          model: Document)
    requires Resolved(w, Reconciling(ord, itemKey), base, model) && IsStep(w, roots)
    ensures w.claimed == At(w.version) && MergesAt(ord, itemKey, roots, base, model, w.version)
  {
    ReconcileStatus(ord, itemKey, base, model, None);
  }

  lemma OwnStep(w: Landing, roots: seq<Json>, model: Document, baseVersion: BaseVersion)
    requires Own(w, model, baseVersion) && baseVersion.At? && IsStep(w, roots)
    ensures w.claimed == baseVersion && w.version == baseVersion.version
    ensures w.version + 1 < |roots| && roots[w.version + 1] == model
  {
  }

  /**
   * In the server's history a call that landed is one step: from the version its caller names to the caller's model, or
   * from the root that was current at the write to the merge of the caller's whole edit onto that root; the latter
   * exactly on `merged`.
   */
  lemma NothingIsLost(ord: KeyOrder, itemKey: Option<ItemKey>, outcome: WriteOutcome, wrote: seq<Landing>,
          roots: seq<Json>, base: Document, model: Document, baseVersion: BaseVersion)
    requires Lands(outcome, wrote, Reconciling(ord, itemKey), base, model, baseVersion) && baseVersion.At?
    requires forall w | w in wrote :: IsStep(w, roots)
    ensures wrote != [] <== outcome.Persisted? || (outcome.After? && outcome.status.Merged?)
    ensures wrote == [] <== outcome.After? && !outcome.status.Merged?
    ensures outcome.Persisted? ==> baseVersion.version + 1 < |roots| && roots[baseVersion.version + 1] == model
    ensures outcome.After? && outcome.status.Merged? ==> MergesAt(ord, itemKey, roots, base, model, wrote[0].version)
    ensures wrote != [] ==>
              && |wrote| == 1 && var v := wrote[0].version;
              && wrote[0].claimed == At(v) && v + 1 < |roots|
              && ((v == baseVersion.version && roots[v + 1] == model) || MergesAt(ord, itemKey, roots, base, model, v))
  {
    if wrote != [] {
      var w := wrote[0];
      assert w in wrote && IsStep(w, roots);
      if Own(w, model, baseVersion) {
        OwnStep(w, roots, model, baseVersion);
      } else {
        ResolvedMerges(ord, itemKey, w, roots, base, model);
      }
    }
  }

  /** What each status other than `persisted` says of the edit and of the last refetch. */
  lemma StatusTells(ord: KeyOrder, itemKey: Option<ItemKey>, status: Status, base: Document, model: Document,
          theirs: Option<Json>)
    requires Tells(status, Reconciling(ord, itemKey).resolve(base, model, theirs))
    ensures status.Unchanged? <==> base == model
    ensures status.Unavailable? <==> base != model && theirs.None?
    ensures status.AlreadyApplied?
       <==> theirs.Some? && Reconcile(ord, itemKey, base, model, theirs) == PatchMerge.AlreadyApplied(theirs.value)
    ensures status.Conflicting?
       <==> theirs.Some? && Reconcile(ord, itemKey, base, model, theirs) == PatchMerge.Conflict(theirs.value)
    ensures status.Merged? || status.Dropped? <==> Reconcile(ord, itemKey, base, model, theirs).Merged?
  {
    ReconcileStatus(ord, itemKey, base, model, theirs);
  }

  /** The last writer to win writes its own model over whatever the server holds. */
  lemma LastWriterWins(outcome: WriteOutcome, wrote: seq<Landing>, base: Document, model: Document,
          baseVersion: BaseVersion)
    requires Lands(outcome, wrote, Force(), base, model, baseVersion) && wrote != []
    ensures wrote[0].model == model
  {
  }

  // Both intents, in one root.

  /** Whether a step of `p` runs through an array of `doc`. */
  predicate ThroughArray(doc: Json, p: Path) {
    PatchMerge.OutermostArray(doc, p).Some?
  }

  function Written(op: Op): Option<Json> {
    if op.Add? || op.Replace? then Some(op.value) else None
  }

  /** A merge holds the user's value at every path the user wrote, through no array. */
  lemma {:induction false} MergeHoldsMine(ord: KeyOrder, b: Json, o: Json, t: Json, m: Json, op: Op)
    requires b.Obj? && o.Obj? && t.Obj? && Edits(b, o, op) && MergeSame(ord, b, o, Some(t)) == Holds(Some(m))
    requires !ThroughArray(b, op.path) && !ThroughArray(t, op.path)
    ensures Get(m, op.path) == Written(op)
    decreases |op.path|
  {
    var k := op.path[0];
    FieldsMerge(ord, b, o, t, m);
    assert MergeField(ord, b, o, t, k) == Holds(Child(m, k));
    if |op.path| == 1 {
      assert op.path == [k];
      GetOne(m, k);
    } else {
      MineBelow(ord, b, o, t, m, op);
    }
  }

  lemma {:induction false} MineBelow(ord: KeyOrder, b: Json, o: Json, t: Json, m: Json, op: Op)
    requires b.Obj? && o.Obj? && t.Obj? && m.Obj? && Edits(b, o, op) && |op.path| > 1
    requires !ThroughArray(b, op.path) && !ThroughArray(t, op.path)
    requires MergeField(ord, b, o, t, op.path[0]) == Holds(Child(m, op.path[0]))
    ensures Get(m, op.path) == Written(op)
    decreases |op.path|, 0
  {
    var (k, low) := (op.path[0], Lowered(op));
    var (c, e) := (b.fields[k], o.fields[k]);
    assert Edits(c, e, low) && !ThroughArray(c, low.path) && c.Obj? && e.Obj?;
    assert MergeField(ord, b, o, t, k) == MergeSame(ord, c, e, Child(t, k));
    MergeStays(ord, c, e, Child(t, k));
    assert Child(t, k).Some? && !ThroughArray(t.fields[k], low.path) && !t.fields[k].Arr?;
    assert t.fields[k].Obj?;
    MergeHoldsMine(ord, c, e, t.fields[k], m.fields[k], low);
  }

  /** At a path the other client wrote, through no array, the merge holds what the values there merge to. */
  lemma {:induction false} MergedThere(ord: KeyOrder, b: Json, o: Json, t: Json, m: Json, op: Op)
    requires b.Obj? && o.Obj? && t.Obj? && Edits(b, t, op) && MergeSame(ord, b, o, Some(t)) == Holds(Some(m))
    requires !ThroughArray(b, op.path)
    ensures MergeThere(ord, Get(b, op.path), Get(o, op.path), Get(t, op.path)) == Holds(Get(m, op.path))
    decreases |op.path|
  {
    if o != b {
      var k := op.path[0];
      FieldsMerge(ord, b, o, t, m);
      assert MergeField(ord, b, o, t, k) == Holds(Child(m, k));
      if |op.path| == 1 {
        assert op.path == [k];
        GetOne(b, k);
        GetOne(o, k);
        GetOne(t, k);
        GetOne(m, k);
      } else {
        ThereBelow(ord, b, o, t, m, op);
      }
    }
  }

  lemma {:induction false} ThereBelow(ord: KeyOrder, b: Json, o: Json, t: Json, m: Json, op: Op)
    requires b.Obj? && o.Obj? && t.Obj? && m.Obj? && Edits(b, t, op) && |op.path| > 1 && !ThroughArray(b, op.path)
    requires MergeField(ord, b, o, t, op.path[0]) == Holds(Child(m, op.path[0]))
    ensures MergeThere(ord, Get(b, op.path), Get(o, op.path), Get(t, op.path)) == Holds(Get(m, op.path))
    decreases |op.path|, 0
  {
    var (k, low) := (op.path[0], Lowered(op));
    var (c, e) := (b.fields[k], t.fields[k]);
    assert Edits(c, e, low) && !ThroughArray(c, low.path) && c.Obj? && e.Obj?;
    if k in o.fields && SameKind(c, o.fields[k]) {
      assert MergeField(ord, b, o, t, k) == MergeSame(ord, c, o.fields[k], Some(e));
      MergeStays(ord, c, o.fields[k], Some(e));
      MergedThere(ord, c, o.fields[k], e, m.fields[k], low);
    } else {
      assert false;
    }
  }

  /** The other client turned an array into an object, or an object into an array. */
  predicate TurnsArray(was: Option<Json>, op: Op) {
    op.Replace? && was.Some? && was.value.Arr? && op.value.Obj?
  }

  predicate TurnsObject(was: Option<Json>, op: Op) {
    op.Replace? && was.Some? && was.value.Obj? && op.value.Arr?
  }

  /** `now` holds each value that the other client gave a field of the object it put in the place of `was`. */
  predicate HoldsFields(was: Json, t: Json, now: Option<Json>)
    requires t.Obj?
  {
    forall k | k in t.fields :: Child(was, k) != Child(t, k) ==> now.Some? && Child(now.value, k) == Child(t, k)
  }

  /** The user appends to the array another value at an index which a field of that object names. */
  predicate AppendsOver(was: Json, ours: Option<Json>, t: Json)
    requires t.Obj?
  {
    ours.Some? && ours.value.Arr? && exists k :: k in t.fields && Overwrites(was, ours.value, t, k)
  }

  /** `now` holds each element of the array `t`, of those that are not the field of their index in `was`. */
  ghost predicate HoldsItems(ord: KeyOrder, was: Json, ours: Option<Json>, t: Json, now: Option<Json>)
    requires was.Obj? && t.Arr?
  {
    now == Some(t)
    || (ours.Some? && ours.value.Obj? && now.Some?
        && forall i | 0 <= i < |t.items| && Child(was, Name(i)) != Some(t.items[i]) ::
          KeepsItem(ord, was, ours.value, t, now.value, i))
  }

  lemma WrittenThere(ord: KeyOrder, was: Option<Json>, ours: Option<Json>, now: Option<Json>, op: Op)
    requires MergeThere(ord, was, ours, Written(op)) == Holds(now) && Written(op) != was
    requires op.Add? ==> was.None?
    requires op.Replace? ==> was.Some? && !SameKind(was.value, op.value)
    requires !TurnsArray(was, op) && !TurnsObject(was, op)
    ensures now == Written(op)
  {
  }

  lemma FieldsThere(ord: KeyOrder, was: Json, ours: Option<Json>, t: Json, now: Option<Json>)
    requires was.Arr? && t.Obj? && MergeThere(ord, Some(was), ours, Some(t)) == Holds(now)
    ensures HoldsFields(was, t, now) <==> !AppendsOver(was, ours, t)
  {
    if ours.Some? && ours.value.Arr? && ours.value != was {
      MergeStays(ord, was, ours.value, Some(t));
      forall k | k in t.fields
        ensures (Child(t, k) != Child(was, k) && Child(now.value, k) != Child(t, k)
                 <==> Overwrites(was, ours.value, t, k))
      {
        AppendOverwrites(ord, was, ours.value, t, now.value, k);
      }
    }
  }

  lemma ItemsThere(ord: KeyOrder, was: Json, ours: Option<Json>, t: Json, now: Option<Json>)
    requires IndexedFields.Ascends(ord) && was.Obj? && t.Arr? && MergeThere(ord, Some(was), ours, Some(t)) == Holds(now)
    ensures HoldsItems(ord, was, ours, t, now)
  {
    if ours.Some? && ours.value.Obj? && ours.value != was {
      MergeStays(ord, was, ours.value, Some(t));
      forall i | 0 <= i < |t.items| && Child(was, Name(i)) != Some(t.items[i])
        ensures KeepsItem(ord, was, ours.value, t, now.value, i)
      {
        ArrayKeepsItems(ord, was, ours.value, t, now.value, i);
      }
    }
  }

  /** What a merged write holds of the other client's operation `op`. */
  ghost predicate HoldsTheirs(ord: KeyOrder, base: Json, model: Json, merged: Json, op: Op) {
    var (was, ours, now) := (Get(base, op.path), Get(model, op.path), Get(merged, op.path));
    if TurnsArray(was, op) then HoldsFields(was.value, op.value, now)
    else if TurnsObject(was, op) then IndexedFields.Ascends(ord) ==> HoldsItems(ord, was.value, ours, op.value, now)
    else now == Written(op)
  }

  /** The user's append takes the place of what the other client's operation `op` put there. */
  predicate OverwrittenBy(base: Json, model: Json, op: Op) {
    var was := Get(base, op.path);
    TurnsArray(was, op) && AppendsOver(was.value, Get(model, op.path), op.value)
  }

  lemma MergeHoldsTheirs(ord: KeyOrder, b: Json, o: Json, t: Json, m: Json, op: Op)
    requires b.Obj? && o.Obj? && t.Obj? && Edits(b, t, op) && MergeSame(ord, b, o, Some(t)) == Holds(Some(m))
    requires !ThroughArray(b, op.path)
    ensures HoldsTheirs(ord, b, o, m, op) <==> !OverwrittenBy(b, o, op)
  {
    var (was, ours, now) := (Get(b, op.path), Get(o, op.path), Get(m, op.path));
    EditWrites(b, t, op);
    EditChanges(b, t, op);
    MergedThere(ord, b, o, t, m, op);
    if TurnsArray(was, op) {
      FieldsThere(ord, was.value, ours, op.value, now);
    } else if TurnsObject(was, op) {
      if IndexedFields.Ascends(ord) {
        ItemsThere(ord, was.value, ours, op.value, now);
      }
    } else {
      WrittenThere(ord, was, ours, now, op);
    }
  }

  lemma {:induction false} EditChanges(x: Json, y: Json, op: Op)
    requires Edits(x, y, op)
    ensures Get(x, op.path) != Get(y, op.path) && (op.Add? ==> Get(x, op.path).None?)
    ensures op.Replace? ==> Get(x, op.path).Some? && !SameKind(Get(x, op.path).value, op.value)
    decreases |op.path|
  {
    var k := op.path[0];
    if |op.path| > 1 {
      EditChanges(Child(x, k).value, Child(y, k).value, Lowered(op));
    } else {
      assert op.path == [k];
      GetOne(x, k);
      GetOne(y, k);
    }
  }

  /**
   * A merged write holds the caller's value at every path the caller changed, and what the others put at every path
   * they did, but exactly where the caller appended over it: at an index of an array that another client made an object
   * with a field of that name. Steps through arrays matched by index, whose elements shift, are not addressed by path.
   */
  lemma MergedHoldsBothEdits(ord: KeyOrder, base: Json, model: Json, theirs: Json, merged: Json)
    requires base.Obj? && model.Obj? && theirs.Obj?
    requires Reconcile(ord, None, base, model, Some(theirs)) == PatchMerge.Merged(merged)
    ensures forall op | op in Diff(ord, base, model) && !ThroughArray(base, op.path)
            && !ThroughArray(theirs, op.path) ::
              Get(merged, op.path) == Written(op)
    ensures forall op | op in Diff(ord, base, theirs) && !ThroughArray(base, op.path) ::
              HoldsTheirs(ord, base, model, merged, op) <==> !OverwrittenBy(base, model, op)
  {
    ReplayIsFieldMerge(ord, base, model, theirs);
    DiffEdits(ord, base, model);
    DiffEdits(ord, base, theirs);
    forall op | op in Diff(ord, base, model) && !ThroughArray(base, op.path) && !ThroughArray(theirs, op.path)
      ensures Get(merged, op.path) == Written(op)
    {
      MergeHoldsMine(ord, base, model, theirs, merged, op);
    }
    forall op | op in Diff(ord, base, theirs) && !ThroughArray(base, op.path)
      ensures HoldsTheirs(ord, base, model, merged, op) <==> !OverwrittenBy(base, model, op)
    {
      MergeHoldsTheirs(ord, base, model, theirs, merged, op);
    }
  }

  /** With every array keyed by one id field it holds both edits whole, items addressed by key, and both orders. */
  lemma MergedHoldsBothById(ord: KeyOrder, base: Json, model: Json, theirs: Json, merged: Json, field: string)
    requires base.Obj? && model.Obj? && theirs.Obj? && KeyedThroughout(field, base, model, theirs)
    requires Reconcile(ord, Some(ByField(field)), base, model, Some(theirs)) == PatchMerge.Merged(merged)
    ensures HoldsEditById(ord, field, base, model, merged) && HoldsEditById(ord, field, base, theirs, merged)
    ensures HoldsOrderById(field, base, model, theirs, merged)
  {
    var (b, o, t) := (FullForm(base, ByField(field)), FullForm(model, ByField(field)),
      FullForm(theirs, ByField(field)));
    MergeHoldsById(ord, base, model, theirs, field);
    OrdersLand(ord, base, model, theirs, field);
    ReplayMakesMerge(ord, base, model, theirs, field);
    Symmetric(Some(b), Some(o), Some(t));
    assert ThreeWayObject(b, t, o) == ThreeWayObject(b, o, t);
    MergeHoldsEdits(ord, b, t, o);
  }
}
