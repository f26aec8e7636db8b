/**
 * The three-way merge of two roots field by field, which is what replaying the diff of one does on the other. Inside an
 * array matched by index it is the strict merge.
 */
module FieldMerge {
  import opened Options
  import opened Listings
  import opened Json
  import opened JsonPatch
  import opened PatchMerge
  import opened PatchRoundTrip
  import opened Landings
  import opened IndexedFields
  import opened StrictMerges

  /** The merge of a value the sides hold as no two values of one kind: the side that changed it wins. */
  function MergeWhole(base: Option<Json>, ours: Option<Json>, theirs: Option<Json>): Merge {
    if ours == base || ours == theirs then Holds(theirs)
    else if theirs == base then Holds(ours)
    else Clash
  }

  /** Whether `y` has an element more than `x` in some array they both hold. */
  predicate Grows(x: Json, y: Json) {
    match (x, y)
    case (Arr(a), Arr(b)) => |b| > |a| || exists i | 0 <= i < |a| && i < |b| :: Grows(a[i], b[i])
    case (Obj(a), Obj(b)) => exists k | k in a && k in b :: Grows(a[k], b[k])
    case _ => false
  }

  /** The merge of a value that base and ours hold as one kind. */
  ghost function MergeSame(ord: KeyOrder, base: Json, ours: Json, theirs: Option<Json>): Merge
    requires SameKind(base, ours)
    decreases base, 2
  {
    if ours == base then Holds(theirs)
    else if base.Arr? then
      if theirs == Some(ours) && !Grows(base, ours) then Holds(theirs) else Strict(ord, base, ours, theirs)
    else if theirs.Some? && theirs.value.Obj? then MergeObjects(ord, base, ours, theirs.value)
    else if theirs.Some? && theirs.value.Arr? then MergeInArray(ord, base, ours, theirs.value)
    else Clash
  }

  ghost function MergeObjects(ord: KeyOrder, base: Json, ours: Json, theirs: Json): Merge
    requires base.Obj? && ours.Obj? && theirs.Obj?
    decreases base, 1
  {
    Collect(AllKeys(base, ours, theirs), k => MergeField(ord, base, ours, theirs, k))
  }

  ghost function MergeField(ord: KeyOrder, base: Json, ours: Json, theirs: Json, k: string): (m: Merge)
    requires base.Obj? && ours.Obj? && theirs.Obj?
    ensures k !in base.fields && k !in ours.fields ==> m == Holds(Child(theirs, k))
    decreases base, 0, 0
  {
    if k in base.fields && k in ours.fields && SameKind(base.fields[k], ours.fields[k])
    then MergeSame(ord, base.fields[k], ours.fields[k], Child(theirs, k))
    else MergeWhole(Child(base, k), Child(ours, k), Child(theirs, k))
  }

  /**
   * An array that stands where base and ours hold an object takes the object's edits at the indexes its keys name, one
   * by one. A diff drops from the end; in an order that does not, dropped elements shift others under later edits, and
   * the replay itself says what lands.
   */
  ghost function MergeInArray(ord: KeyOrder, base: Json, ours: Json, theirs: Json): Merge
    requires base.Obj? && ours.Obj? && theirs.Arr?
    decreases base, 1
  {
    if DropsFromEnd(ord, base, ours)
    then InArray(ord, base, ours, theirs, k => MergeIndexed(ord, base, ours, theirs, k))
    else AsMerge(Replayed(ord, base, ours, theirs))
  }

  /** The merge of a field with the element its key names. */
  ghost function MergeIndexed(ord: KeyOrder, base: Json, ours: Json, theirs: Json, k: string): Merge
    requires base.Obj? && ours.Obj? && theirs.Arr?
    decreases base, 0, 0
  {
    if k in base.fields && k in ours.fields && SameKind(base.fields[k], ours.fields[k])
    then MergeSame(ord, base.fields[k], ours.fields[k], Child(theirs, k))
    else StrictWhole(Child(base, k), Child(ours, k), Child(theirs, k))
  }

  /** What the replay leaves of `theirs`, `None` for a conflict. */
  function Replayed(ord: KeyOrder, base: Json, ours: Json, theirs: Json): Option<Json>
    requires SameKind(base, ours)
  {
    Landing(base, theirs, Remaining(ord, base, ours, theirs))
  }

  /** The operations of the user's edit that theirs does not agree with already. */
  function Remaining(ord: KeyOrder, base: Json, ours: Json, theirs: Json): seq<Op>
    requires SameKind(base, ours)
  {
    WithoutAgreed(base, ours, theirs, Diff(ord, base, ours))
  }

  /** Whether theirs already holds the whole edit, so there is nothing to write. */
  ghost predicate Settled(base: Json, ours: Json, theirs: Option<Json>)
    requires SameKind(base, ours)
    decreases base, 1
  {
    || ours == base
    || (base.Arr? && theirs == Some(ours) && !Grows(base, ours))
    || (base.Obj? && theirs.Some? && theirs.value.Obj?
        && forall k | k in base.fields.Keys + ours.fields.Keys :: FieldSettled(base, ours, theirs.value, k))
    || (base.Obj? && theirs.Some? && theirs.value.Arr?
        && forall k | k in base.fields.Keys + ours.fields.Keys :: IndexSettled(base, ours, theirs.value, k))
  }

  ghost predicate FieldSettled(base: Json, ours: Json, theirs: Json, k: string)
    requires base.Obj? && ours.Obj? && theirs.Obj?
    decreases base, 0
  {
    if k in base.fields && k in ours.fields && SameKind(base.fields[k], ours.fields[k])
    then Settled(base.fields[k], ours.fields[k], Child(theirs, k))
    else Child(ours, k) == Child(base, k) || Child(ours, k) == Child(theirs, k)
  }

  ghost predicate IndexSettled(base: Json, ours: Json, theirs: Json, k: string)
    requires base.Obj? && ours.Obj? && theirs.Arr?
    decreases base, 0
  {
    if k in base.fields && k in ours.fields && SameKind(base.fields[k], ours.fields[k])
    then Settled(base.fields[k], ours.fields[k], Child(theirs, k))
    else Child(ours, k) == Child(base, k)
  }

  /** How the values merge that the three roots hold at one place. */
  ghost function MergeThere(ord: KeyOrder, b: Option<Json>, o: Option<Json>, t: Option<Json>): Merge {
    if b.Some? && o.Some? && SameKind(b.value, o.value) then MergeSame(ord, b.value, o.value, t)
    else MergeWhole(b, o, t)
  }

  // Which operations pend below a key.

  lemma {:induction false} OutermostIsArray(doc: Json, p: Path)
    ensures OutermostArray(doc, p).Some? ==> IsArray(Get(doc, OutermostArray(doc, p).value))
    decreases |p|
  {
    if p != [] && !doc.Arr? && Child(doc, p[0]).Some? {
      var c := Child(doc, p[0]).value;
      OutermostIsArray(c, p[1..]);
      if OutermostArray(c, p[1..]).Some? {
        GetUnder(doc, p[0], OutermostArray(c, p[1..]).value);
      }
    }
  }

  lemma OutermostUnder(doc: Json, k: string, p: Path)
    requires doc.Obj? && k in doc.fields
    ensures OutermostArray(doc, [k] + p) == OnChild(k, OutermostArray(doc.fields[k], p))
  {
    assert ([k] + p)[1..] == p;
  }

  ghost predicate SameInserted(k: string, inserted: set<Path>, below: set<Path>) {
    forall p: Path :: [k] + p in inserted <==> p in below
  }

  lemma AgreedUnder(ours: Json, theirs: Json, inserted: set<Path>, below: set<Path>, k: string, op: Op)
    requires ours.Obj? && k in ours.fields && op.path != []
    requires SameInserted(k, inserted, below)
    ensures Agreed(ours, theirs, inserted, Lifted(k, op)) == Agreed(ours.fields[k], ChildOrNull(theirs, k), below, op)
  {
    var c := ours.fields[k];
    OutermostUnder(ours, k, op.path);
    OutermostIsArray(c, op.path);
    LastUnder(k, op.path);
    match OutermostArray(c, op.path)
    case Some(outer) =>
      GetUnder(ours, k, outer);
      GetUnder(theirs, k, outer);
    case None =>
      GetUnder(theirs, k, Parent(op.path));
  }

  lemma {:induction false} PendingUnder(ours: Json, theirs: Json, inserted: set<Path>, below: set<Path>, k: string,
          ops: seq<Op>)
    requires ours.Obj? && k in ours.fields
    requires forall op | op in ops :: op.path != []
    requires SameInserted(k, inserted, below)
    ensures Pending(ours, theirs, inserted, Under(k, ops))
         == Under(k, Pending(ours.fields[k], ChildOrNull(theirs, k), below, ops))
  {
    if ops != [] {
      var s := ChildOrNull(theirs, k);
      AgreedUnder(ours, theirs, inserted, below, k, ops[0]);
      PendingUnder(ours, theirs, inserted, below, k, ops[1..]);
      assert Under(k, ops)[1..] == Under(k, ops[1..]);
      var head := if Agreed(ours.fields[k], s, below, ops[0]) then [] else [ops[0]];
      UnderConcat(k, head, Pending(ours.fields[k], s, below, ops[1..]));
      assert Under(k, head) == if head == [] then [] else [Lifted(k, ops[0])];
    }
  }

  // What the diff inserts into below a key.

  lemma FieldDiffKey(ord: KeyOrder, x: Json, y: Json, k: string)
    requires x.Obj? && y.Obj?
    ensures forall op | op in FieldDiff(ord, x, y, k) :: Edits(x, y, op) && op.path[0] == k
  {
    FieldOpsEdit(ord, x, y, [k]);
    assert [k][1..] == [] && FieldOps(ord, x, y, [k]) == FieldDiff(ord, x, y, k) + [];
  }

  lemma {:induction false} FieldOpsMember(ord: KeyOrder, x: Json, y: Json, keys: seq<string>, op: Op)
    requires x.Obj? && y.Obj? && op.path != []
    ensures op in FieldOps(ord, x, y, keys) <==> op.path[0] in keys && op in FieldDiff(ord, x, y, op.path[0])
  {
    if keys != [] {
      FieldDiffKey(ord, x, y, keys[0]);
      FieldOpsMember(ord, x, y, keys[1..], op);
    }
  }

  lemma DiffMemberUnder(ord: KeyOrder, x: Json, y: Json, k: string, op: Op)
    requires x.Obj? && y.Obj? && k in x.fields && k in y.fields && SameKind(x.fields[k], y.fields[k])
    requires op.path != []
    ensures Lifted(k, op) in Diff(ord, x, y) <==> op in Diff(ord, x.fields[k], y.fields[k])
  {
    var below := Diff(ord, x.fields[k], y.fields[k]);
    DiffOrderLists(ord, x, y);
    FieldOpsMember(ord, x, y, DiffOrder(ord, x, y), Lifted(k, op));
    if op in below {
      var i :| 0 <= i < |below| && below[i] == op;
      assert Under(k, below)[i] == Lifted(k, op);
    }
    if Lifted(k, op) in Under(k, below) {
      var i :| 0 <= i < |below| && Under(k, below)[i] == Lifted(k, op);
      assert Lowered(Under(k, below)[i]) == below[i];
    }
  }

  lemma InsertedUnder(ord: KeyOrder, x: Json, y: Json, k: string)
    requires x.Obj? && y.Obj? && k in x.fields && k in y.fields && SameKind(x.fields[k], y.fields[k])
    ensures SameInserted(k, InsertedArrays(x, y, Diff(ord, x, y)),
                         InsertedArrays(x.fields[k], y.fields[k], Diff(ord, x.fields[k], y.fields[k])))
  {
    var (c, d) := (x.fields[k], y.fields[k]);
    var (ops, below) := (Diff(ord, x, y), Diff(ord, c, d));
    DiffEdits(ord, x, y);
    DiffEdits(ord, c, d);
    forall p: Path ensures [k] + p in InsertedArrays(x, y, ops) <==> p in InsertedArrays(c, d, below) {
      if p in InsertedArrays(c, d, below) {
        var op :| op in below && Inserts(c, op) && OutermostArray(d, op.path) == Some(p);
        DiffMemberUnder(ord, x, y, k, op);
        InsertsUnder(x, y, k, op);
      }
      if [k] + p in InsertedArrays(x, y, ops) {
        InsertedAboveIsBelow(ord, x, y, k, p);
      }
    }
  }

  lemma InsertedAboveIsBelow(ord: KeyOrder, x: Json, y: Json, k: string, p: Path)
    requires x.Obj? && y.Obj? && k in x.fields && k in y.fields && SameKind(x.fields[k], y.fields[k])
    requires [k] + p in InsertedArrays(x, y, Diff(ord, x, y))
    ensures p in InsertedArrays(x.fields[k], y.fields[k], Diff(ord, x.fields[k], y.fields[k]))
  {
    var ops := Diff(ord, x, y);
    DiffEdits(ord, x, y);
    var up :| up in ops && Inserts(x, up) && OutermostArray(y, up.path) == Some([k] + p);
    var op := Lowered(up);
    OutermostFirst(y, up.path);
    assert up == Lifted(k, op) && op.path != [];
    DiffMemberUnder(ord, x, y, k, op);
    InsertsUnder(x, y, k, op);
    assert ([k] + p)[1..] == p;
  }

  /** An array below a field is reached through that field, so not by a path of one step. */
  lemma OutermostFirst(doc: Json, p: Path)
    requires doc.Obj? && OutermostArray(doc, p).Some?
    ensures |p| > 1 && OutermostArray(doc, p).value != [] && OutermostArray(doc, p).value[0] == p[0]
  {
  }

  lemma InsertsUnder(x: Json, y: Json, k: string, op: Op)
    requires x.Obj? && y.Obj? && k in x.fields && k in y.fields && op.path != []
    ensures Inserts(x, Lifted(k, op)) == Inserts(x.fields[k], op)
    ensures OutermostArray(y, Lifted(k, op).path) == OnChild(k, OutermostArray(y.fields[k], op.path))
  {
    LastUnder(k, op.path);
    GetUnder(x, k, Parent(op.path));
    OutermostUnder(y, k, op.path);
  }

  // Which edits insert an element.

  predicate InsertsAny(base: Json, patch: seq<Op>) {
    exists op | op in patch :: Inserts(base, op)
  }

  lemma InsertsAnyUnder(x: Json, k: string, ops: seq<Op>)
    requires Child(x, k).Some? && forall op | op in ops :: op.path != []
    ensures InsertsAny(x, Under(k, ops)) <==> InsertsAny(Child(x, k).value, ops)
  {
    forall i | 0 <= i < |ops| ensures Inserts(x, Under(k, ops)[i]) == Inserts(Child(x, k).value, ops[i]) {
      LastUnder(k, ops[i].path);
      GetUnder(x, k, Parent(ops[i].path));
    }
    if InsertsAny(Child(x, k).value, ops) {
      var i :| 0 <= i < |ops| && Inserts(Child(x, k).value, ops[i]);
      assert Under(k, ops)[i] in Under(k, ops);
    }
    if InsertsAny(x, Under(k, ops)) {
      var i :| 0 <= i < |Under(k, ops)| && Inserts(x, Under(k, ops)[i]);
      assert ops[i] in ops;
    }
  }

  lemma InsertsAnyConcat(x: Json, ops: seq<Op>, more: seq<Op>)
    ensures InsertsAny(x, ops + more) <==> InsertsAny(x, ops) || InsertsAny(x, more)
  {
    assert forall op :: op in ops + more <==> op in ops || op in more;
  }

  lemma {:induction false} InsertsWhereItGrows(ord: KeyOrder, x: Json, y: Json)
    requires SameKind(x, y)
    ensures InsertsAny(x, Diff(ord, x, y)) <==> Grows(x, y)
    decreases x, 3
  {
    if x.Obj? {
      var keys := DiffOrder(ord, x, y);
      DiffOrderLists(ord, x, y);
      FieldsInsert(ord, x, y, keys);
      assert Grows(x, y) <==> exists k :: k in keys && GrowsAt(x, y, k);
    } else {
      var n := |x.items|;
      ElementsInsert(ord, x, y, n);
      AppendsInsert(x, y, n);
      InsertsAnyConcat(x, ElementOps(ord, x, y, n), Appends(n, y));
    }
  }

  predicate GrowsAt(x: Json, y: Json, k: string)
    requires x.Obj? && y.Obj?
  {
    k in x.fields && k in y.fields && Grows(x.fields[k], y.fields[k])
  }

  lemma {:induction false} ValueInserts(ord: KeyOrder, x: Json, y: Json, k: string)
    requires SameKind(x, y) && Child(x, k).Some? && Child(y, k).Some? && Child(x, k).value < x
    ensures InsertsAny(x, ValueDiff(ord, k, Child(x, k).value, Child(y, k).value))
       <==> Grows(Child(x, k).value, Child(y, k).value)
    decreases x, 1
  {
    var (c, e) := (Child(x, k).value, Child(y, k).value);
    if SameKind(c, e) {
      DiffEdits(ord, c, e);
      InsertsAnyUnder(x, k, Diff(ord, c, e));
      InsertsWhereItGrows(ord, c, e);
    }
  }

  lemma {:induction false} FieldsInsert(ord: KeyOrder, x: Json, y: Json, keys: seq<string>)
    requires x.Obj? && y.Obj?
    ensures InsertsAny(x, FieldOps(ord, x, y, keys)) <==> exists k :: k in keys && GrowsAt(x, y, k)
    decreases x, 2, |keys|
  {
    if keys != [] {
      var k := keys[0];
      assert Parent([k]) == [] && Get(x, []) == Some(x);
      if k in x.fields && k in y.fields {
        ValueInserts(ord, x, y, k);
      }
      assert InsertsAny(x, FieldDiff(ord, x, y, k)) <==> GrowsAt(x, y, k);
      InsertsAnyConcat(x, FieldDiff(ord, x, y, k), FieldOps(ord, x, y, keys[1..]));
      FieldsInsert(ord, x, y, keys[1..]);
    }
  }

  lemma {:induction false} ElementsInsert(ord: KeyOrder, x: Json, y: Json, n: nat)
    requires x.Arr? && y.Arr? && n <= |x.items|
    ensures InsertsAny(x, ElementOps(ord, x, y, n))
       <==> exists i | 0 <= i < n && i < |y.items| :: Grows(x.items[i], y.items[i])
    decreases x, 2, n
  {
    if n > 0 {
      IndexOfName(n - 1);
      if n - 1 < |y.items| {
        ValueInserts(ord, x, y, Name(n - 1));
      }
      InsertsAnyConcat(x, ElementDiff(ord, x, y, n - 1), ElementOps(ord, x, y, n - 1));
      ElementsInsert(ord, x, y, n - 1);
    }
  }

  lemma AppendsInsert(x: Json, y: Json, n: nat)
    requires x.Arr? && y.Arr?
    ensures InsertsAny(x, Appends(n, y)) <==> n < |y.items|
  {
    if n < |y.items| {
      var op := Appends(n, y)[0];
      assert Parent(op.path) == [] && Get(x, []) == Some(x);
      assert op in Appends(n, y) && Inserts(x, op);
    }
  }

  // The replay is the merge.

  ghost predicate InsertedBelow(ord: KeyOrder, x: Json, y: Json, inserted: set<Path>)
    requires x.Obj? && y.Obj?
  {
    forall k | k in x.fields && k in y.fields && SameKind(x.fields[k], y.fields[k]) ::
      SameInserted(k, inserted, InsertedArrays(x.fields[k], y.fields[k], Diff(ord, x.fields[k], y.fields[k])))
  }

  lemma {:induction false} ReplayIsMerge(ord: KeyOrder, x: Json, y: Json, t: Json)
    requires SameKind(x, y)
    ensures AsMerge(Replayed(ord, x, y, t)) == MergeSame(ord, x, y, Some(t))
    ensures Remaining(ord, x, y, t) == [] <==> Settled(x, y, Some(t))
    decreases x, 3
  {
    if x == y {
      NothingReplayed(ord, x, t);
    } else if x.Arr? {
      ReplayOnArray(ord, x, y, t);
    } else if t.Obj? {
      ReplayOnObject(ord, x, y, t);
      assert MergeSame(ord, x, y, Some(t)) == MergeObjects(ord, x, y, t);
    } else if t.Arr? {
      ReplayInArray(ord, x, y, t);
      assert MergeSame(ord, x, y, Some(t)) == MergeInArray(ord, x, y, t);
    } else {
      ReplayOnBare(ord, x, y, t);
    }
  }

  lemma NothingReplayed(ord: KeyOrder, x: Json, t: Json)
    requires SameKind(x, x)
    ensures Remaining(ord, x, x, t) == [] && Replayed(ord, x, x, t) == Some(t)
  {
    DiffEmptyIffEqual(ord, x, x);
    assert Landing(x, t, []) == Some(t);
  }

  lemma ReplayOnArray(ord: KeyOrder, x: Json, y: Json, t: Json)
    requires x.Arr? && y.Arr? && x != y
    ensures AsMerge(Replayed(ord, x, y, t)) == MergeSame(ord, x, y, Some(t))
    ensures Remaining(ord, x, y, t) == [] <==> Settled(x, y, Some(t))
  {
    DiffEmptyIffEqual(ord, x, y);
    DiffEdits(ord, x, y);
    InsertsWhereItGrows(ord, x, y);
    LandingIsStrict(ord, x, y, t);
    var patch := Diff(ord, x, y);
    assert [] in InsertedArrays(x, y, patch) <==> InsertsAny(x, patch) by {
      if InsertsAny(x, patch) {
        var op :| op in patch && Inserts(x, op);
        assert OutermostArray(y, op.path) == Some([]);
      }
    }
    PendingInArray(y, t, InsertedArrays(x, y, patch), patch);
  }

  lemma {:induction false} PendingInArray(y: Json, t: Json, inserted: set<Path>, ops: seq<Op>)
    requires y.Arr? && forall op | op in ops :: op.path != []
    ensures Pending(y, t, inserted, ops) == if [] !in inserted && t == y then [] else ops
  {
    if ops != [] {
      assert ops[0] in ops;
      PendingInArray(y, t, inserted, ops[1..]);
    }
  }

  lemma {:induction false} ReplayOnObject(ord: KeyOrder, x: Json, y: Json, t: Json)
    requires x.Obj? && y.Obj? && t.Obj?
    ensures AsMerge(Replayed(ord, x, y, t)) == MergeObjects(ord, x, y, t)
    ensures Remaining(ord, x, y, t) == [] <==> forall k | k in x.fields.Keys + y.fields.Keys :: FieldSettled(x, y, t, k)
    decreases x, 2
  {
    var (keys, inserted) := (DiffOrder(ord, x, y), InsertedArrays(x, y, Diff(ord, x, y)));
    var ops := k => Pending(y, t, inserted, FieldDiff(ord, x, y, k));
    var field := k => MergeField(ord, x, y, t, k);
    AllInsertedBelow(ord, x, y);
    DiffOrderLists(ord, x, y);
    forall k | k in keys ensures LandsAs(x, t, ops(k), k, field(k)) && (ops(k) == [] <==> FieldSettled(x, y, t, k)) {
      forall d: Json | d.Obj? && Child(d, k) == Child(t, k) ensures LandsIn(x, t, d, ops(k), k, field(k)) {
        FieldReplay(ord, x, y, t, inserted, k, d);
      }
      FieldReplay(ord, x, y, t, inserted, k, t);
    }
    PendingJoined(ord, x, y, t, inserted, keys, ops);
    assert Members(keys) == x.fields.Keys + y.fields.Keys;
    FieldsLand(x, t, keys, ops, field, AllKeys(x, y, t));
    JoinedEmpty(keys, ops);
    assert Replayed(ord, x, y, t) == LandingOn(x, t, t, Joined(keys, ops));
  }

  lemma {:induction false} ReplayInArray(ord: KeyOrder, x: Json, y: Json, t: Json)
    requires x.Obj? && y.Obj? && t.Arr?
    ensures AsMerge(Replayed(ord, x, y, t)) == MergeInArray(ord, x, y, t)
    ensures Remaining(ord, x, y, t) == [] <==> forall k | k in x.fields.Keys + y.fields.Keys :: IndexSettled(x, y, t, k)
    decreases x, 2
  {
    var (keys, inserted) := (DiffOrder(ord, x, y), InsertedArrays(x, y, Diff(ord, x, y)));
    var ops := k => Pending(y, t, inserted, FieldDiff(ord, x, y, k));
    AllInsertedBelow(ord, x, y);
    DiffOrderLists(ord, x, y);
    forall k | k in keys ensures ops(k) == [] <==> IndexSettled(x, y, t, k) {
      if k in x.fields {
        ItemReplay(ord, x, y, t, inserted, k, t);
      } else {
        AddPends(ord, x, y, t, inserted, k);
      }
    }
    PendingJoined(ord, x, y, t, inserted, keys, ops);
    JoinedEmpty(keys, ops);
    assert Replayed(ord, x, y, t) == LandingOn(x, t, t, Joined(keys, ops));
    if DropsFromEnd(ord, x, y) {
      ItemsReplay(ord, x, y, t, inserted, ops);
    }
  }

  lemma {:induction false} ItemsReplay(ord: KeyOrder, x: Json, y: Json, t: Json, inserted: set<Path>,
          ops: string -> seq<Op>)
    requires x.Obj? && y.Obj? && t.Arr? && InsertedBelow(ord, x, y, inserted) && DropsFromEnd(ord, x, y)
    requires forall k :: ops(k) == Pending(y, t, inserted, FieldDiff(ord, x, y, k))
    ensures AsMerge(LandingOn(x, t, t, Joined(DiffOrder(ord, x, y), ops))) == MergeInArray(ord, x, y, t)
    decreases x, 1
  {
    var field := k => MergeIndexed(ord, x, y, t, k);
    forall k | k in x.fields
      ensures Lands(x, t, ops(k), k, field(k)) && (Child(y, k) == Child(x, k) ==> ops(k) == [])
      ensures k in y.fields && Child(t, k).Some? ==> field(k) != Holds(None)
    {
      forall d: Json | d.Arr? && Child(d, k) == Child(t, k) ensures LandsIn(x, t, d, ops(k), k, field(k)) {
        ItemReplay(ord, x, y, t, inserted, k, d);
      }
      ItemReplay(ord, x, y, t, inserted, k, t);
      MergeIndexedIs(ord, x, y, t, k);
      if ops(k) == [] {
        assert LandsIn(x, t, t, [], k, field(k));
        PutSame(t, k, field(k).value);
      }
    }
    forall k | k in y.fields && k !in x.fields ensures ops(k) == [Add([k], y.fields[k])] {
      AddPends(ord, x, y, t, inserted, k);
    }
    ObjectLands(ord, x, y, t, ops, field);
  }

  lemma MergeIndexedIs(ord: KeyOrder, x: Json, y: Json, t: Json, k: string)
    requires x.Obj? && y.Obj? && t.Arr? && k in x.fields
    ensures var m := MergeIndexed(ord, x, y, t, k);
            && (Child(t, k).None? && m.Holds? ==> m.value.None?)
            && (k in y.fields && Child(t, k).Some? ==> m != Holds(None))
  {
    if k in y.fields && SameKind(x.fields[k], y.fields[k]) {
      MergeStays(ord, x.fields[k], y.fields[k], Child(t, k));
    }
  }

  lemma PutSame(t: Json, k: string, v: Option<Json>)
    requires t.Arr? && Put(t, k, v) == t && (Child(t, k).None? ==> v.None?)
    ensures v == Child(t, k)
  {
    if Child(t, k).Some? && v.Some? {
      ChildOfWithChild(t, k, v.value, v.value);
    }
  }

  /** What both sides hold neither comes nor goes. */
  lemma MergeStays(ord: KeyOrder, b: Json, o: Json, t: Option<Json>)
    requires SameKind(b, o)
    ensures MergeSame(ord, b, o, t).Holds? ==> (MergeSame(ord, b, o, t).value.Some? <==> t.Some?)
  {
    StrictStays(ord, b, o, t);
  }

  /** What a merge of objects that holds says of each field. */
  lemma FieldsMerge(ord: KeyOrder, b: Json, o: Json, t: Json, m: Json)
    requires b.Obj? && o.Obj? && t.Obj? && o != b && MergeSame(ord, b, o, Some(t)) == Holds(Some(m))
    ensures m.Obj? && forall k :: MergeField(ord, b, o, t, k) == Holds(Child(m, k))
  {
    var field := k => MergeField(ord, b, o, t, k);
    assert MergeSame(ord, b, o, Some(t)) == Collect(AllKeys(b, o, t), field);
    forall k ensures m.Obj? && field(k) == Holds(Child(m, k)) {
      CollectedField(AllKeys(b, o, t), field, m, k);
    }
  }

  lemma {:induction false} PendingJoined(ord: KeyOrder, x: Json, y: Json, t: Json, inserted: set<Path>,
          keys: seq<string>, ops: string -> seq<Op>)
    requires x.Obj? && y.Obj?
    requires forall k :: ops(k) == Pending(y, t, inserted, FieldDiff(ord, x, y, k))
    ensures Pending(y, t, inserted, FieldOps(ord, x, y, keys)) == Joined(keys, ops)
    decreases |keys|
  {
    if keys != [] {
      PendingConcat(y, t, inserted, FieldDiff(ord, x, y, keys[0]), FieldOps(ord, x, y, keys[1..]));
      PendingJoined(ord, x, y, t, inserted, keys[1..], ops);
    }
  }

  lemma BareAgreesWithNothing(y: Json, t: Json, inserted: set<Path>, op: Op)
    requires y.Obj? && !t.Obj? && !t.Arr? && op.path != []
    ensures !Agreed(y, t, inserted, op)
  {
    OutermostIsArray(y, op.path);
    if OutermostArray(y, op.path).Some? {
      OutermostFirst(y, op.path);
    } else if |op.path| > 1 {
      assert Parent(op.path) != [];
    }
  }

  lemma ReplayOnBare(ord: KeyOrder, x: Json, y: Json, t: Json)
    requires x.Obj? && y.Obj? && x != y && !t.Obj? && !t.Arr?
    ensures Replayed(ord, x, y, t) == None && Remaining(ord, x, y, t) != []
  {
    RemainingOnBare(ord, x, y, t);
    var pending := Remaining(ord, x, y, t);
    GuardedPaths(x, pending);
    assert Guarded(x, pending)[0].path != [];
  }

  lemma RemainingOnBare(ord: KeyOrder, x: Json, y: Json, t: Json)
    requires x.Obj? && y.Obj? && x != y && !t.Obj? && !t.Arr?
    ensures Remaining(ord, x, y, t) != [] && forall o | o in Remaining(ord, x, y, t) :: o.path != []
  {
    DiffEmptyIffEqual(ord, x, y);
    DiffEdits(ord, x, y);
    var patch := Diff(ord, x, y);
    var inserted := InsertedArrays(x, y, patch);
    PendingMembers(y, t, inserted, patch);
    var op := patch[0];
    assert Edits(x, y, op);
    BareAgreesWithNothing(y, t, inserted, op);
    assert op in Remaining(ord, x, y, t);
    forall o | o in Remaining(ord, x, y, t) ensures o.path != [] {
      assert o in patch;
    }
  }

  lemma AllInsertedBelow(ord: KeyOrder, x: Json, y: Json)
    requires x.Obj? && y.Obj?
    ensures InsertedBelow(ord, x, y, InsertedArrays(x, y, Diff(ord, x, y)))
  {
    forall k | k in x.fields && k in y.fields && SameKind(x.fields[k], y.fields[k])
      ensures SameInserted(k, InsertedArrays(x, y, Diff(ord, x, y)),
                           InsertedArrays(x.fields[k], y.fields[k], Diff(ord, x.fields[k], y.fields[k])))
    {
      InsertedUnder(ord, x, y, k);
    }
  }

  lemma RemainingPaths(ord: KeyOrder, c: Json, e: Json, s: Json)
    requires SameKind(c, e)
    ensures forall op | op in Remaining(ord, c, e, s) :: op.path != []
  {
    DiffEdits(ord, c, e);
    PendingMembers(e, s, InsertedArrays(c, e, Diff(ord, c, e)), Diff(ord, c, e));
  }

  lemma RemainingUnder(ord: KeyOrder, x: Json, y: Json, t: Json, inserted: set<Path>, k: string)
    requires x.Obj? && y.Obj? && InsertedBelow(ord, x, y, inserted)
    requires k in x.fields && k in y.fields && SameKind(x.fields[k], y.fields[k])
    ensures Pending(y, t, inserted, FieldDiff(ord, x, y, k))
         == Under(k, Remaining(ord, x.fields[k], y.fields[k], ChildOrNull(t, k)))
  {
    var (c, e) := (x.fields[k], y.fields[k]);
    DiffEdits(ord, c, e);
    PendingUnder(y, t, inserted, InsertedArrays(c, e, Diff(ord, c, e)), k, Diff(ord, c, e));
  }

  /** The pending operations of a field that both hold as one kind leave of it what it merges to. */
  lemma {:induction false} SameKindReplay(ord: KeyOrder, x: Json, y: Json, t: Json, inserted: set<Path>, k: string,
          d: Json)
    requires x.Obj? && y.Obj? && (d.Obj? || d.Arr?) && InsertedBelow(ord, x, y, inserted)
    requires Child(d, k) == Child(t, k)
    requires k in x.fields && k in y.fields && SameKind(x.fields[k], y.fields[k])
    ensures var pending := Pending(y, t, inserted, FieldDiff(ord, x, y, k));
            && (pending == [] <==> Settled(x.fields[k], y.fields[k], Child(t, k)))
            && LandsIn(x, t, d, pending, k, MergeSame(ord, x.fields[k], y.fields[k], Child(t, k)))
    decreases x, 0, 0
  {
    var (c, e, s) := (x.fields[k], y.fields[k], ChildOrNull(t, k));
    var below := Remaining(ord, c, e, s);
    RemainingUnder(ord, x, y, t, inserted, k);
    RemainingPaths(ord, c, e, s);
    BelowLands(x, t, d, k, below);
    ReplayIsMerge(ord, c, e, s);
    if Child(t, k).None? {
      NothingSettledOnNull(ord, c, e);
    }
  }

  lemma NothingSettledOnNull(ord: KeyOrder, c: Json, e: Json)
    requires SameKind(c, e)
    ensures Settled(c, e, Some(Null)) <==> c == e
    ensures Settled(c, e, None) <==> c == e
    ensures MergeSame(ord, c, e, None) == if c == e then Holds(None) else Clash
  {
  }

  lemma {:induction false} FieldReplay(ord: KeyOrder, x: Json, y: Json, t: Json, inserted: set<Path>, k: string,
          d: Json)
    requires x.Obj? && y.Obj? && t.Obj? && d.Obj? && InsertedBelow(ord, x, y, inserted)
    requires (k in x.fields || k in y.fields) && Child(d, k) == Child(t, k)
    ensures var pending := Pending(y, t, inserted, FieldDiff(ord, x, y, k));
            && (pending == [] <==> FieldSettled(x, y, t, k))
            && LandsIn(x, t, d, pending, k, MergeField(ord, x, y, t, k))
    decreases x, 1
  {
    if k in x.fields && k in y.fields && SameKind(x.fields[k], y.fields[k]) {
      SameKindReplay(ord, x, y, t, inserted, k, d);
    } else {
      WholeReplay(ord, x, y, t, inserted, k, d);
    }
  }

  lemma {:induction false} ItemReplay(ord: KeyOrder, x: Json, y: Json, t: Json, inserted: set<Path>, k: string, d: Json)
    requires x.Obj? && y.Obj? && t.Arr? && d.Arr? && InsertedBelow(ord, x, y, inserted)
    requires k in x.fields && Child(d, k) == Child(t, k)
    ensures var pending := Pending(y, t, inserted, FieldDiff(ord, x, y, k));
            && (pending == [] <==> IndexSettled(x, y, t, k))
            && LandsIn(x, t, d, pending, k, MergeIndexed(ord, x, y, t, k))
    decreases x, 0, 1
  {
    if k in y.fields && SameKind(x.fields[k], y.fields[k]) {
      SameKindReplay(ord, x, y, t, inserted, k, d);
    } else if Child(y, k) == Child(x, k) {
      NothingLands(x, t, d, k);
    } else {
      var op := if k in y.fields then Replace([k], y.fields[k]) else Remove([k]);
      assert FieldDiff(ord, x, y, k) == [op];
      PendsInArray(y, t, inserted, op);
      WholeLands(x, t, d, k, op, Child(y, k));
    }
  }

  /** An array agrees with no operation on one of its own indexes. */
  lemma PendsInArray(y: Json, t: Json, inserted: set<Path>, op: Op)
    requires y.Obj? && t.Arr? && |op.path| == 1
    ensures Pending(y, t, inserted, [op]) == [op]
  {
    assert Parent(op.path) == [] && op.path[1..] == [];
    assert OutermostArray(y, op.path) == None;
    assert [op][1..] == [] && Pending(y, t, inserted, []) == [];
  }

  lemma AddPends(ord: KeyOrder, x: Json, y: Json, t: Json, inserted: set<Path>, k: string)
    requires x.Obj? && y.Obj? && t.Arr? && k in y.fields && k !in x.fields
    ensures Pending(y, t, inserted, FieldDiff(ord, x, y, k)) == [Add([k], y.fields[k])] && !IndexSettled(x, y, t, k)
  {
    PendsInArray(y, t, inserted, Add([k], y.fields[k]));
  }

  lemma WholeReplay(ord: KeyOrder, x: Json, y: Json, t: Json, inserted: set<Path>, k: string, d: Json)
    requires x.Obj? && y.Obj? && t.Obj? && d.Obj? && Child(d, k) == Child(t, k)
    requires !(k in x.fields && k in y.fields && SameKind(x.fields[k], y.fields[k]))
    ensures var pending := Pending(y, t, inserted, FieldDiff(ord, x, y, k));
            && (pending == [] <==> FieldSettled(x, y, t, k))
            && LandsIn(x, t, d, pending, k, MergeField(ord, x, y, t, k))
  {
    WholeFieldDiff(ord, x, y, k);
    if Child(y, k) == Child(x, k) {
      NothingLands(x, t, d, k);
    } else {
      var op := FieldDiff(ord, x, y, k)[0];
      AgreedWhole(y, t, inserted, op);
      if Child(y, k) == Child(t, k) {
        NothingLands(x, t, d, k);
      } else if k in x.fields {
        WholeLands(x, t, d, k, op, Child(y, k));
      } else {
        AddedFieldLands(ord, x, y, t, k, d);
      }
    }
  }

  lemma WholeFieldDiff(ord: KeyOrder, x: Json, y: Json, k: string)
    requires x.Obj? && y.Obj? && !(k in x.fields && k in y.fields && SameKind(x.fields[k], y.fields[k]))
    ensures FieldDiff(ord, x, y, k)
         == if Child(y, k) == Child(x, k) then []
            else if k !in y.fields then [Remove([k])]
            else if k in x.fields then [Replace([k], y.fields[k])]
            else [Add([k], y.fields[k])]
  {
  }

  /** An object agrees with an operation on one of its own fields that already is as it makes it. */
  lemma AgreedWhole(y: Json, t: Json, inserted: set<Path>, op: Op)
    requires y.Obj? && t.Obj? && |op.path| == 1 && !op.Test?
    requires if op.Remove? then op.path[0] !in y.fields else Child(y, op.path[0]) == Some(op.value)
    ensures Pending(y, t, inserted, [op]) == if Child(y, op.path[0]) == Child(t, op.path[0]) then [] else [op]
  {
    assert Parent(op.path) == [] && LastToken(op.path) == op.path[0] && op.path[1..] == [];
    assert OutermostArray(y, op.path) == None;
    assert [op][1..] == [] && Pending(y, t, inserted, []) == [];
  }

  /** A removed field's element is dropped, and no other. */
  lemma RemovedIsDropped(ord: KeyOrder, x: Json, y: Json, t: Json, k: string)
    requires x.Obj? && y.Obj? && t.Arr? && k in x.fields && MergeIndexed(ord, x, y, t, k).Holds?
    ensures DropsRemoved(y, t, k, MergeIndexed(ord, x, y, t, k))
  {
    MergeIndexedIs(ord, x, y, t, k);
  }
}
