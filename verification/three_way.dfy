/** On documents without arrays the replay is a plain three-way merge, which knows nothing of patches. */
module ThreeWayMerge {
  import opened Options
  import opened Json
  import opened JsonPatch
  import opened PatchMerge
  import opened PatchRoundTrip
  import opened Landings
  import opened FieldMerge
  import opened MergeLaws

  /**
   * The reference merge of a value two sides changed: objects on every side merge field by field, else the side that
   * changed the value wins, equal changes agree, and different ones clash.
   */
  ghost function ThreeWay(b: Option<Json>, o: Option<Json>, t: Option<Json>): (m: Merge)
    ensures m.Holds? && m.value.Some? ==> o.Some? || t.Some?
    ensures m.Holds? && b.Some? && o.Some? && t.Some? ==> m.value.Some?
    decreases b.Some?, if b.Some? then b.value else Null, 2
  {
    if IsObject(b) && IsObject(o) && IsObject(t) then ThreeWayObject(b.value, o.value, t.value)
    else if o == b then Holds(t)
    else if t == b || t == o then Holds(o)
    else Clash
  }

  ghost function ThreeWayObject(b: Json, o: Json, t: Json): Merge
    requires b.Obj? && o.Obj? && t.Obj?
    decreases true, b, 1
  {
    Collect(AllKeys(b, o, t), k => ThreeWayField(b, o, t, k))
  }

  ghost function ThreeWayField(b: Json, o: Json, t: Json, k: string): (m: Merge)
    requires b.Obj? && o.Obj? && t.Obj?
    ensures k !in AllKeys(b, o, t) ==> m == Holds(None)
    ensures k in t.fields && k !in b.fields && k !in o.fields ==> m == Holds(Child(t, k))
    decreases true, b, 0
  {
    ThreeWay(Child(b, k), Child(o, k), Child(t, k))
  }

  predicate IsObject(v: Option<Json>) {
    v.Some? && v.value.Obj?
  }

  /** A merge of objects, field by field. */
  lemma ThreeWayObjects(b: Json, o: Json, t: Json, m: Json)
    requires b.Obj? && o.Obj? && t.Obj? && m.Obj?
    requires forall k :: ThreeWayField(b, o, t, k) == Holds(Child(m, k))
    ensures ThreeWayObject(b, o, t) == Holds(Some(m))
  {
    forall k | k in m.fields ensures k in AllKeys(b, o, t) {
      assert ThreeWayField(b, o, t, k) == Holds(Child(m, k));
    }
    CollectHolds(AllKeys(b, o, t), k => ThreeWayField(b, o, t, k), m);
  }

  /** What a merge of objects that holds says of each field. */
  lemma ThreeWayHolds(b: Json, o: Json, t: Json, k: string)
    requires b.Obj? && o.Obj? && t.Obj? && ThreeWayObject(b, o, t).Holds?
    ensures IsObject(ThreeWayObject(b, o, t).value)
    ensures ThreeWayField(b, o, t, k) == Holds(Child(ThreeWayObject(b, o, t).value.value, k))
  {
  }

  // Laws of the reference merge.

  lemma {:induction false} NoChange(b: Option<Json>, t: Option<Json>)
    ensures ThreeWay(b, b, t) == Holds(t)
    decreases b.Some?, if b.Some? then b.value else Null
  {
    if IsObject(b) && IsObject(t) {
      var (x, z) := (b.value, t.value);
      forall k ensures ThreeWayField(x, x, z, k) == Holds(Child(z, k)) {
        if k in x.fields {
          NoChange(Child(x, k), Child(z, k));
        }
      }
      ThreeWayObjects(x, x, z, z);
    }
  }

  /** Neither side is preferred. */
  lemma {:induction false} Symmetric(b: Option<Json>, o: Option<Json>, t: Option<Json>)
    ensures ThreeWay(b, o, t) == ThreeWay(b, t, o)
    decreases b.Some?, if b.Some? then b.value else Null
  {
    if IsObject(b) && IsObject(o) && IsObject(t) {
      var (x, y, z) := (b.value, o.value, t.value);
      forall k ensures ThreeWayField(x, y, z, k) == ThreeWayField(x, z, y, k) {
        assert ThreeWayField(x, y, z, k) == ThreeWay(Child(x, k), Child(y, k), Child(z, k));
        assert ThreeWayField(x, z, y, k) == ThreeWay(Child(x, k), Child(z, k), Child(y, k));
        if k in x.fields {
          Symmetric(Child(x, k), Child(y, k), Child(z, k));
        }
      }
      assert AllKeys(x, y, z) == AllKeys(x, z, y);
      CollectSame(AllKeys(x, y, z), k => ThreeWayField(x, y, z, k), k => ThreeWayField(x, z, y, k));
    }
  }

  lemma {:induction false} SameChange(b: Option<Json>, o: Option<Json>)
    ensures ThreeWay(b, o, o) == Holds(o)
    decreases b.Some?, if b.Some? then b.value else Null
  {
    if IsObject(b) && IsObject(o) {
      var (x, y) := (b.value, o.value);
      forall k ensures ThreeWayField(x, y, y, k) == Holds(Child(y, k)) {
        if k in x.fields {
          SameChange(Child(x, k), Child(y, k));
        }
      }
      ThreeWayObjects(x, y, y, y);
    }
  }

  /** Merging an edit into a root that holds it changes nothing. */
  lemma {:induction false} Idempotent(b: Option<Json>, o: Option<Json>, t: Option<Json>)
    requires ThreeWay(b, o, t).Holds?
    ensures ThreeWay(b, o, ThreeWay(b, o, t).value) == ThreeWay(b, o, t)
    decreases b.Some?, if b.Some? then b.value else Null
  {
    var m := ThreeWay(b, o, t).value;
    if IsObject(b) && IsObject(o) && IsObject(t) {
      var (x, y, z) := (b.value, o.value, t.value);
      ThreeWayHolds(x, y, z, "");
      forall k
        ensures ThreeWayField(x, y, m.value, k) == Holds(Child(m.value, k))
      {
        ThreeWayHolds(x, y, z, k);
        if k in x.fields {
          Idempotent(Child(x, k), Child(y, k), Child(z, k));
        }
      }
      ThreeWayObjects(x, y, m.value, m.value);
    } else if o == b {
      NoChange(b, m);
    } else {
      SameChange(b, o);
    }
  }

  /** The merge holds the edit's value wherever the edit wrote one. */
  lemma {:induction false} HoldsEveryEdit(b: Json, o: Json, t: Json, op: Op)
    requires b.Obj? && o.Obj? && t.Obj? && ArrayFree(b) && ThreeWayObject(b, o, t).Holds?
    requires Edits(b, o, op) && !op.Test?
    ensures Get(ThreeWayObject(b, o, t).value.value, op.path) == if op.Remove? then None else Some(op.value)
    decreases |op.path|
  {
    var (k, m) := (op.path[0], ThreeWayObject(b, o, t).value.value);
    ThreeWayHolds(b, o, t, k);
    if |op.path| == 1 {
      assert op.path == [k];
      GetOne(m, k);
    } else {
      EditBelow(b, o, t, op);
    }
  }

  lemma {:induction false} EditBelow(b: Json, o: Json, t: Json, op: Op)
    requires b.Obj? && o.Obj? && t.Obj? && ArrayFree(b) && ThreeWayObject(b, o, t).Holds?
    requires Edits(b, o, op) && !op.Test? && |op.path| > 1
    ensures IsObject(ThreeWayObject(b, o, t).value)
    ensures Get(ThreeWayObject(b, o, t).value.value, op.path) == if op.Remove? then None else Some(op.value)
    decreases |op.path|, 0
  {
    var (k, low) := (op.path[0], Lowered(op));
    var (c, d) := (b.fields[k], o.fields[k]);
    ThreeWayHolds(b, o, t, k);
    assert Edits(c, d, low) && c.Obj? && d.Obj? && c != d;
    assert ThreeWayField(b, o, t, k) == ThreeWay(Some(c), Some(d), Child(t, k));
    if IsObject(Child(t, k)) {
      HoldsEveryEdit(c, d, t.fields[k], low);
    } else {
      assert false;
    }
  }

  // The replay is the reference merge.

  lemma {:induction false} FieldMergeIsThreeWay(ord: KeyOrder, b: Json, o: Json, t: Json)
    requires b.Obj? && o.Obj? && t.Obj? && ArrayFree(b) && ArrayFree(o) && ArrayFree(t)
    ensures MergeSame(ord, b, o, Some(t)) == ThreeWayObject(b, o, t)
    ensures Settled(b, o, Some(t)) <==> ThreeWayObject(b, o, t) == Holds(Some(t))
    decreases b
  {
    if o == b {
      NoChange(Some(b), Some(t));
    } else {
      forall k | k in AllKeys(b, o, t)
        ensures MergeField(ord, b, o, t, k) == ThreeWayField(b, o, t, k)
        ensures FieldSettled(b, o, t, k) <==> ThreeWayField(b, o, t, k) == Holds(Child(t, k))
      {
        FieldIsThreeWay(ord, b, o, t, k);
      }
      MergeIsThreeWay(ord, b, o, t);
    }
  }

  lemma {:induction false} FieldIsThreeWay(ord: KeyOrder, b: Json, o: Json, t: Json, k: string)
    requires b.Obj? && o.Obj? && t.Obj? && ArrayFree(b) && ArrayFree(o) && ArrayFree(t)
    requires k in AllKeys(b, o, t)
    ensures MergeField(ord, b, o, t, k) == ThreeWayField(b, o, t, k)
    ensures FieldSettled(b, o, t, k) <==> ThreeWayField(b, o, t, k) == Holds(Child(t, k))
    decreases b, 0
  {
    if k in b.fields && k in o.fields && SameKind(b.fields[k], o.fields[k]) {
      var (c, d) := (b.fields[k], o.fields[k]);
      if k in t.fields && t.fields[k].Obj? {
        FieldMergeIsThreeWay(ord, c, d, t.fields[k]);
      } else {
        assert MergeField(ord, b, o, t, k) == MergeSame(ord, c, d, Child(t, k));
      }
    }
  }

  lemma MergeIsThreeWay(ord: KeyOrder, b: Json, o: Json, t: Json)
    requires b.Obj? && o.Obj? && t.Obj? && o != b
    requires forall k | k in AllKeys(b, o, t) ::
               && MergeField(ord, b, o, t, k) == ThreeWayField(b, o, t, k)
               && (FieldSettled(b, o, t, k) <==> ThreeWayField(b, o, t, k) == Holds(Child(t, k)))
    ensures MergeSame(ord, b, o, Some(t)) == ThreeWayObject(b, o, t)
    ensures Settled(b, o, Some(t)) <==> ThreeWayObject(b, o, t) == Holds(Some(t))
  {
    CollectSame(AllKeys(b, o, t), k => MergeField(ord, b, o, t, k), k => ThreeWayField(b, o, t, k));
    if ThreeWayObject(b, o, t) == Holds(Some(t)) {
      forall k | k in AllKeys(b, o, t) ensures ThreeWayField(b, o, t, k) == Holds(Child(t, k)) {
        ThreeWayHolds(b, o, t, k);
      }
    }
    if Settled(b, o, Some(t)) {
      forall k ensures ThreeWayField(b, o, t, k) == Holds(Child(t, k)) {
        if k in b.fields.Keys + o.fields.Keys {
          assert FieldSettled(b, o, t, k);
        }
      }
      ThreeWayObjects(b, o, t, t);
    }
  }

  /**
   * On documents without arrays the replay conflicts exactly where the reference merge clashes, leaves everything as it
   * is exactly where that merge is theirs, and else makes that merge.
   */
  lemma ReplayIsThreeWay(ord: KeyOrder, base: Json, ours: Json, theirs: Json)
    requires base.Obj? && ours.Obj? && theirs.Obj? && ArrayFree(base) && ArrayFree(ours) && ArrayFree(theirs)
    ensures ReplayEdit(ord, base, ours, theirs)
         == match ThreeWayObject(base, ours, theirs)
            case Clash => Conflict(theirs)
            case Holds(m) =>
              if m == Some(theirs) then AlreadyApplied(theirs)
              else if m.Some? then Merged(m.value)
              else Conflict(theirs)
    ensures ThreeWayObject(base, ours, theirs).Holds? ==> ThreeWayObject(base, ours, theirs).value.Some?
  {
    FieldMergeIsThreeWay(ord, base, ours, theirs);
    ReplayIsFieldMerge(ord, base, ours, theirs);
  }

  /** Either side may be the one that replays: both conflict, or both end at one root. */
  lemma ReplaySymmetric(ord: KeyOrder, base: Json, ours: Json, theirs: Json)
    requires base.Obj? && ours.Obj? && theirs.Obj? && ArrayFree(base) && ArrayFree(ours) && ArrayFree(theirs)
    ensures Ends(ReplayEdit(ord, base, ours, theirs)) == Ends(ReplayEdit(ord, base, theirs, ours))
  {
    ReplayIsThreeWay(ord, base, ours, theirs);
    ReplayIsThreeWay(ord, base, theirs, ours);
    Symmetric(Some(base), Some(ours), Some(theirs));
  }

  // Changes of unrelated paths.

  /** Whether one path leads to the other's value or into it. */
  predicate Related(p: Path, q: Path) {
    p <= q || q <= p
  }

  lemma FieldOpInDiff(ord: KeyOrder, x: Json, y: Json, k: string, op: Op)
    requires x.Obj? && y.Obj? && op in FieldDiff(ord, x, y, k)
    ensures op in Diff(ord, x, y) && op.path != [] && op.path[0] == k
  {
    FieldDiffKey(ord, x, y, k);
    DiffOrderLists(ord, x, y);
    assert Edits(x, y, op);
    FieldOpsMember(ord, x, y, DiffOrder(ord, x, y), op);
  }

  /** A clash is between two operations, one of each side, of which one's path leads to the other's. */
  lemma {:induction false} ClashIsRelated(ord: KeyOrder, b: Json, o: Json, t: Json) returns (mine: Op, other: Op)
    requires b.Obj? && o.Obj? && t.Obj? && ArrayFree(b) && ThreeWayObject(b, o, t).Clash?
    ensures mine in Diff(ord, b, o) && other in Diff(ord, b, t) && Related(mine.path, other.path)
    decreases b
  {
    var k :| k in AllKeys(b, o, t) && ThreeWayField(b, o, t, k).Clash?;
    assert ThreeWay(Child(b, k), Child(o, k), Child(t, k)).Clash?;
    if IsObject(Child(b, k)) && IsObject(Child(o, k)) && IsObject(Child(t, k)) {
      var p, q := ClashIsRelated(ord, b.fields[k], o.fields[k], t.fields[k]);
      OpLifts(ord, b, o, k, p);
      OpLifts(ord, b, t, k, q);
      mine, other := Lifted(k, p), Lifted(k, q);
      RelatedUnder(k, p.path, q.path);
    } else {
      ChangedFieldOps(ord, b, o, k);
      ChangedFieldOps(ord, b, t, k);
      mine, other := FieldDiff(ord, b, o, k)[0], FieldDiff(ord, b, t, k)[0];
      FieldOpInDiff(ord, b, o, k, mine);
      FieldOpInDiff(ord, b, t, k, other);
      FirstSteps(k, mine.path, other.path);
    }
  }

  lemma OpLifts(ord: KeyOrder, x: Json, y: Json, k: string, op: Op)
    requires x.Obj? && y.Obj? && k in x.fields && k in y.fields && SameKind(x.fields[k], y.fields[k])
    requires op in Diff(ord, x.fields[k], y.fields[k])
    ensures Lifted(k, op) in Diff(ord, x, y)
  {
    DiffEdits(ord, x.fields[k], y.fields[k]);
    assert Edits(x.fields[k], y.fields[k], op);
    DiffMemberUnder(ord, x, y, k, op);
  }

  lemma RelatedUnder(k: string, p: Path, q: Path)
    requires Related(p, q)
    ensures Related([k] + p, [k] + q)
  {
  }

  lemma FirstSteps(k: string, p: Path, q: Path)
    requires p != [] && p[0] == k && q != [] && q[0] == k && (p == [k] || q == [k])
    ensures Related(p, q)
  {
  }

  lemma ChangedFieldOps(ord: KeyOrder, b: Json, o: Json, k: string)
    requires b.Obj? && o.Obj? && ArrayFree(b) && Child(o, k) != Child(b, k)
    ensures FieldDiff(ord, b, o, k) != []
    ensures !(IsObject(Child(b, k)) && IsObject(Child(o, k))) ==> FieldDiff(ord, b, o, k)[0].path == [k]
  {
    if IsObject(Child(b, k)) && IsObject(Child(o, k)) {
      DiffEmptyIffEqual(ord, b.fields[k], o.fields[k]);
    }
  }

  /** Two changes of which no path leads to another's always merge. */
  lemma UnrelatedChangesMerge(ord: KeyOrder, base: Json, ours: Json, theirs: Json)
    requires base.Obj? && ours.Obj? && theirs.Obj? && ArrayFree(base) && ArrayFree(ours) && ArrayFree(theirs)
    requires forall mine, other | mine in Diff(ord, base, ours) && other in Diff(ord, base, theirs) ::
             !Related(mine.path, other.path)
    ensures !ReplayEdit(ord, base, ours, theirs).Conflict?
  {
    if ThreeWayObject(base, ours, theirs).Clash? {
      var mine, other := ClashIsRelated(ord, base, ours, theirs);
      assert false;
    }
    ReplayIsThreeWay(ord, base, ours, theirs);
  }
}
