/**
 * What the replay promises on every root: it is the field merge, it fast-forwards, and it never lands an edit twice.
 */
module MergeLaws {
  import opened Options
  import opened Json
  import opened JsonPatch
  import opened PatchMerge
  import opened PatchRoundTrip
  import opened Landings
  import opened StrictMerges
  import opened FieldMerge

  /** The replay of a whole edit on a refetched root. */
  function ReplayEdit(ord: KeyOrder, base: Json, ours: Json, theirs: Json): Outcome
    requires SameKind(base, ours)
  {
    Replay(base, ours, theirs, Diff(ord, base, ours))
  }

  /** The root an outcome leaves the caller to build on, `None` for a conflict. */
  function Ends(outcome: Outcome): Option<Json> {
    match outcome
    case Merged(m) => Some(m)
    case AlreadyApplied(theirs) => Some(theirs)
    case _ => None
  }

  /** The replay is the field merge, conflicts included, and leaves nothing to write exactly on what is settled. */
  lemma ReplayIsFieldMerge(ord: KeyOrder, base: Json, ours: Json, theirs: Json)
    requires SameKind(base, ours)
    ensures ReplayEdit(ord, base, ours, theirs)
         == if Settled(base, ours, Some(theirs)) then AlreadyApplied(theirs)
            else match MergeSame(ord, base, ours, Some(theirs))
              case Clash => Conflict(theirs)
              case Holds(merged) => if merged.Some? then Merged(merged.value) else Conflict(theirs)
    ensures MergeSame(ord, base, ours, Some(theirs)) == match Ends(ReplayEdit(ord, base, ours, theirs))
                                                          case None => Clash
                                                          case Some(root) => Holds(Some(root))
  {
    var remaining := Remaining(ord, base, ours, theirs);
    ReplayIsMerge(ord, base, ours, theirs);
    assert ReplayEdit(ord, base, ours, theirs)
        == if remaining == [] then AlreadyApplied(theirs) else Landed(theirs, Landing(base, theirs, remaining));
    if remaining == [] {
      assert Landing(base, theirs, []) == Some(theirs);
    }
  }

  /** Roots of one field are merged as the field is. */
  lemma OneField(ord: KeyOrder, k: string, x: Json, y: Json, t: Json, m: Json)
    requires SameKind(x, y) && !Settled(x, y, Some(t)) && MergeSame(ord, x, y, Some(t)) == Holds(Some(m))
    ensures ReplayEdit(ord, Obj(map[k := x]), Obj(map[k := y]), Obj(map[k := t])) == Merged(Obj(map[k := m]))
  {
    var (base, ours, theirs, merged) := (Obj(map[k := x]), Obj(map[k := y]), Obj(map[k := t]), Obj(map[k := m]));
    OneKey(k, x, y, t);
    OneChild(k, x);
    OneChild(k, y);
    OneChild(k, t);
    OneChild(k, m);
    SameKindField(ord, k, base, ours, theirs);
    OnlyField(ord, k, base, ours, theirs, merged);
  }

  lemma OneKey(k: string, x: Json, y: Json, t: Json)
    ensures AllKeys(Obj(map[k := x]), Obj(map[k := y]), Obj(map[k := t])) == {k}
  {
  }

  lemma OneChild(k: string, v: Json)
    ensures Child(Obj(map[k := v]), k) == Some(v) && map[k := v].Keys == {k}
  {
  }

  lemma SameKindField(ord: KeyOrder, k: string, x: Json, y: Json, t: Json)
    requires x.Obj? && y.Obj? && t.Obj? && k in x.fields && k in y.fields && SameKind(x.fields[k], y.fields[k])
    ensures MergeField(ord, x, y, t, k) == MergeSame(ord, x.fields[k], y.fields[k], Child(t, k))
    ensures FieldSettled(x, y, t, k) <==> Settled(x.fields[k], y.fields[k], Child(t, k))
  {
  }

  lemma OnlyField(ord: KeyOrder, k: string, base: Json, ours: Json, theirs: Json, merged: Json)
    requires base.Obj? && ours.Obj? && theirs.Obj? && merged.Obj? && AllKeys(base, ours, theirs) == {k}
    requires merged.fields.Keys <= {k} && MergeField(ord, base, ours, theirs, k) == Holds(Child(merged, k))
    requires k in base.fields && !FieldSettled(base, ours, theirs, k)
    ensures ReplayEdit(ord, base, ours, theirs) == Merged(merged)
  {
    var field := l => MergeField(ord, base, ours, theirs, l);
    forall l ensures field(l) == Holds(Child(merged, l)) {
      assert l != k ==> l !in AllKeys(base, ours, theirs);
    }
    CollectHolds({k}, field, merged);
    assert k in base.fields.Keys + ours.fields.Keys;
    assert MergeObjects(ord, base, ours, theirs) == Collect({k}, field);
    ReplayIsFieldMerge(ord, base, ours, theirs);
  }

  // Where theirs is the base.

  lemma {:induction false} AddTarget(x: Json, y: Json, op: Op)
    requires Edits(x, y, op) && op.Add?
    ensures Get(x, Parent(op.path)).Some? && Child(Get(x, Parent(op.path)).value, LastToken(op.path)) == None
    decreases |op.path|
  {
    if |op.path| > 1 {
      var below := Lowered(op);
      AddTarget(Child(x, op.path[0]).value, Child(y, op.path[0]).value, below);
      assert op.path == [op.path[0]] + below.path;
      LastUnder(op.path[0], below.path);
      GetUnder(x, op.path[0], Parent(below.path));
    } else {
      assert Parent(op.path) == [];
    }
  }

  lemma NothingBlocksOnBase(x: Json, y: Json, op: Op)
    requires Edits(x, y, op)
    ensures !Blocks(x, x, op)
  {
    if op.Add? {
      AddTarget(x, y, op);
    }
  }

  lemma {:induction false} MergeOnBase(ord: KeyOrder, x: Json, y: Json)
    requires SameKind(x, y)
    ensures MergeSame(ord, x, y, Some(x)) == Holds(Some(y))
    ensures Settled(x, y, Some(x)) <==> x == y
    decreases x
  {
    if x.Arr? {
      LandsOnBase(ord, x, y);
    } else {
      var field := k => MergeField(ord, x, y, x, k);
      forall k
        ensures field(k) == Holds(Child(y, k))
        ensures k in x.fields.Keys + y.fields.Keys ==> (FieldSettled(x, y, x, k) <==> Child(x, k) == Child(y, k))
      {
        if k in x.fields && k in y.fields && SameKind(x.fields[k], y.fields[k]) {
          MergeOnBase(ord, x.fields[k], y.fields[k]);
        }
      }
      CollectHolds(AllKeys(x, y, x), field, y);
      EqualFieldByField(x, y);
    }
  }

  lemma LandsOnBase(ord: KeyOrder, x: Json, y: Json)
    requires SameKind(x, y)
    ensures Strict(ord, x, y, Some(x)) == Holds(Some(y))
  {
    DiffEdits(ord, x, y);
    forall op | op in Diff(ord, x, y) ensures !Blocks(x, x, op) {
      NothingBlocksOnBase(x, y, op);
    }
    RoundTrip(ord, x, y);
    LandingIsStrict(ord, x, y, x);
  }

  lemma EqualFieldByField(x: Json, y: Json)
    requires x.Obj? && y.Obj?
    ensures x == y <==> forall k | k in x.fields.Keys + y.fields.Keys :: Child(x, k) == Child(y, k)
  {
    if forall k | k in x.fields.Keys + y.fields.Keys :: Child(x, k) == Child(y, k) {
      forall k | k in x.fields.Keys + y.fields.Keys
        ensures k in x.fields && k in y.fields && x.fields[k] == y.fields[k]
      {
        assert Child(x, k) == Child(y, k);
      }
      assert x.fields == y.fields;
    }
  }

  /** On the base itself every edit lands whole, array items and their order included. */
  lemma FastForward(ord: KeyOrder, base: Json, ours: Json)
    requires SameKind(base, ours) && ours != base
    ensures ReplayEdit(ord, base, ours, base) == Merged(ours)
  {
    MergeOnBase(ord, base, ours);
    ReplayIsFieldMerge(ord, base, ours, base);
  }

  // Where theirs is the user's root.

  lemma {:induction false} MergeOnOurs(ord: KeyOrder, x: Json, y: Json)
    requires SameKind(x, y)
    ensures MergeSame(ord, x, y, Some(y)) == if Grows(x, y) then Clash else Holds(Some(y))
    ensures Settled(x, y, Some(y)) <==> !Grows(x, y)
    decreases x
  {
    if x == y {
      NeverGrows(x);
    } else if x.Arr? {
      RefusedOnResult(ord, x, y);
      LandingIsStrict(ord, x, y, y);
    } else {
      var field := k => MergeField(ord, x, y, y, k);
      forall k | k in AllKeys(x, y, y)
        ensures field(k) == if GrowsAt(x, y, k) then Clash else Holds(Child(y, k))
        ensures FieldSettled(x, y, y, k) <==> !GrowsAt(x, y, k)
      {
        if k in x.fields && k in y.fields && SameKind(x.fields[k], y.fields[k]) {
          MergeOnOurs(ord, x.fields[k], y.fields[k]);
        }
      }
      GrowsSomewhere(x, y);
      if !Grows(x, y) {
        CollectHolds(AllKeys(x, y, y), field, y);
      }
    }
  }

  lemma GrowsSomewhere(x: Json, y: Json)
    requires x.Obj? && y.Obj?
    ensures Grows(x, y) <==> exists k :: k in AllKeys(x, y, y) && GrowsAt(x, y, k)
    ensures Grows(x, y) <==> exists k | k in x.fields.Keys + y.fields.Keys :: GrowsAt(x, y, k)
  {
    if Grows(x, y) {
      var k :| k in x.fields && k in y.fields && Grows(x.fields[k], y.fields[k]);
      assert GrowsAt(x, y, k) && k in AllKeys(x, y, y);
    }
  }

  lemma {:induction false} NeverGrows(x: Json)
    ensures !Grows(x, x)
  {
    match x
    case Arr(items) =>
      forall i | 0 <= i < |items| ensures !Grows(items[i], items[i]) {
        NeverGrows(items[i]);
      }
    case Obj(fields) =>
      forall k | k in fields ensures !Grows(fields[k], fields[k]) {
        NeverGrows(fields[k]);
      }
    case _ =>
  }

  /** A refetch that holds the edit already takes nothing more, unless the edit makes some array longer. */
  lemma ReplayOnOurs(ord: KeyOrder, base: Json, ours: Json)
    requires SameKind(base, ours)
    ensures ReplayEdit(ord, base, ours, ours) == if Grows(base, ours) then Conflict(ours) else AlreadyApplied(ours)
  {
    MergeOnOurs(ord, base, ours);
    ReplayIsFieldMerge(ord, base, ours, ours);
  }

  // Where both sides append to one array.

  lemma {:induction false} Unedited(ord: KeyOrder, items: seq<Json>, vs: seq<Json>, ws: seq<Json>, n: nat)
    requires n <= |items|
    ensures StrictItems(ord, Arr(items), Arr(items + vs), Arr(items + ws), n) == items[n..]
    decreases |items| - n
  {
    if n < |items| {
      var (x, y, t) := (Arr(items), Arr(items + vs), Arr(items + ws));
      assert StrictItem(ord, x, y, t, n) == Holds(Some(items[n])) by {
        assert At(x, n) == At(y, n) == At(t, n) == Some(items[n]);
      }
      Unedited(ord, items, vs, ws, n + 1);
      assert items[n..] == [items[n]] + items[n + 1..];
    }
  }

  lemma AppendsCollide(items: seq<Json>, vs: seq<Json>, ws: seq<Json>)
    ensures Collide(Arr(items), Arr(items + ws), vs) <==> exists v :: v in vs && v in ws
  {
    forall v ensures multiset(items + ws)[v] > multiset(items)[v] <==> v in ws {
      assert multiset(items + ws) == multiset(items) + multiset(ws);
    }
  }

  lemma AppendsMerge(ord: KeyOrder, items: seq<Json>, vs: seq<Json>, ws: seq<Json>)
    requires vs != []
    ensures StrictArrays(ord, Arr(items), Arr(items + vs), Arr(items + ws))
         == if exists v :: v in vs && v in ws then Clash else Holds(Some(Arr(items + vs + ws)))
  {
    var (x, y, t) := (Arr(items), Arr(items + vs), Arr(items + ws));
    forall i | 0 <= i < |items| ensures StrictItem(ord, x, y, t, i).Holds? {
      assert At(x, i) == At(y, i) == At(t, i);
    }
    Unedited(ord, items, vs, ws, 0);
    assert StrictItems(ord, x, y, t, 0) == items;
    AppendsCollide(items, vs, ws);
    assert From(y.items, |items|) == vs && From(t.items, |items|) == ws;
    assert AppendsFit(x, y, t) <==> !Collide(x, t, vs);
  }

  /**
   * Two clients that append to one array both keep what they append, the user's first, and clash exactly over a value
   * both append.
   */
  lemma ConcurrentAppends(ord: KeyOrder, items: seq<Json>, vs: seq<Json>, ws: seq<Json>)
    ensures MergeSame(ord, Arr(items), Arr(items + vs), Some(Arr(items + ws)))
         == if exists v :: v in vs && v in ws then Clash else Holds(Some(Arr(items + vs + ws)))
  {
    if vs == [] {
      assert items + vs == items;
    } else {
      AppendsMerge(ord, items, vs, ws);
      assert |items + vs| > |items| && Grows(Arr(items), Arr(items + vs));
    }
  }
}
