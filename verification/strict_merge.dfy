/**
 * The merge inside an array matched by index, where even one and the same change on both sides clashes. It is what a
 * whole diff does to what stands in theirs.
 */
module StrictMerges {
  import opened Options
  import opened Listings
  import opened Json
  import opened JsonPatch
  import opened PatchMerge
  import opened PatchRoundTrip
  import opened Landings
  import opened IndexedFields

  /** The merge of a value that the two sides do not both change, and that is not descended into. */
  function StrictWhole(b: Option<Json>, o: Option<Json>, t: Option<Json>): Merge {
    if o == b then Holds(t)
    else if t == b then Holds(o)
    else Clash
  }

  /** The merge of a value that base and ours hold as one kind. */
  ghost function Strict(ord: KeyOrder, b: Json, o: Json, t: Option<Json>): Merge
    requires SameKind(b, o)
    decreases b, 3
  {
    if o == b then Holds(t)
    else if t.None? then Clash
    else if b.Arr? then
      (match t.value
       case Arr(_) => StrictArrays(ord, b, o, t.value)
       case Obj(_) => ArrayInObject(b, o, t.value)
       case _ => Clash)
    else
      match t.value
      case Obj(_) => Collect(AllKeys(b, o, t.value), k => StrictField(ord, b, o, t.value, k))
      case Arr(_) =>
        if DropsFromEnd(ord, b, o) then InArray(ord, b, o, t.value, k => StrictField(ord, b, o, t.value, k))
        else AsMerge(Landing(b, t.value, Diff(ord, b, o)))
      case _ => Clash
  }

  /** The merge of a field with what its key names in theirs. */
  ghost function StrictField(ord: KeyOrder, b: Json, o: Json, t: Json, k: string): Merge
    requires b.Obj? && o.Obj?
    decreases b, 0
  {
    if k in b.fields && k in o.fields && SameKind(b.fields[k], o.fields[k])
    then Strict(ord, b.fields[k], o.fields[k], Child(t, k))
    else StrictWhole(Child(b, k), Child(o, k), Child(t, k))
  }

  // Arrays on every side.

  function At(j: Json, i: nat): Option<Json>
    requires j.Arr?
  {
    if i < |j.items| then Some(j.items[i]) else None
  }

  /** Whether another client moved the element at `i` of `b`, as far as its neighbours tell. */
  predicate Moved(b: Json, t: Json, i: nat)
    requires b.Arr? && t.Arr?
  {
    At(b, i) != At(t, i) && (MovedIn(b.items, t.items, At(t, i)) || MovedOut(b.items, t.items, At(b, i)))
  }

  ghost function StrictItem(ord: KeyOrder, b: Json, o: Json, t: Json, i: nat): Merge
    requires b.Arr? && o.Arr? && t.Arr? && i < |b.items|
    decreases b, 0
  {
    if i < |o.items| && SameKind(b.items[i], o.items[i]) then
      if o.items[i] != b.items[i] && Moved(b, t, i) then Clash
      else Strict(ord, b.items[i], o.items[i], At(t, i))
    else StrictWhole(At(b, i), At(o, i), At(t, i))
  }

  ghost function StrictItems(ord: KeyOrder, b: Json, o: Json, t: Json, n: nat): seq<Json>
    requires b.Arr? && o.Arr? && t.Arr?
    decreases b, 1, |b.items| - n
  {
    if n >= |b.items| then []
    else
      var m := StrictItem(ord, b, o, t, n);
      (if Kept(m) then [m.value.value] else []) + StrictItems(ord, b, o, t, n + 1)
  }

  function From(items: seq<Json>, n: nat): seq<Json> {
    if n <= |items| then items[n..] else []
  }

  /** Elements are appended at the base's length, and none of a value that theirs holds more often than the base. */
  predicate AppendsFit(b: Json, o: Json, t: Json)
    requires b.Arr? && o.Arr? && t.Arr?
  {
    |o.items| > |b.items| ==>
      |b.items| <= |t.items| && !Collide(b, t, From(o.items, |b.items|))
  }

  predicate Collide(b: Json, t: Json, added: seq<Json>)
    requires b.Arr? && t.Arr?
  {
    exists v | v in added :: multiset(t.items)[v] > multiset(b.items)[v]
  }

  /** The elements by index, then what the user appended, then what the other client did. */
  ghost function StrictArrays(ord: KeyOrder, b: Json, o: Json, t: Json): Merge
    requires b.Arr? && o.Arr? && t.Arr?
    decreases b, 2
  {
    if (exists i | 0 <= i < |b.items| :: StrictItem(ord, b, o, t, i).Clash?) || !AppendsFit(b, o, t) then Clash
    else Holds(Some(Arr(StrictItems(ord, b, o, t, 0) + From(o.items, |b.items|) + From(t.items, |b.items|))))
  }

  // An array where theirs holds an object.

  /**
   * Edits inside an element clash; an element's replacement or removal meets the field of its index; an append sets
   * one.
   */
  function ItemField(b: Json, o: Json, t: Json, k: string): Merge {
    var (was, now, field) := (Child(b, k), Child(o, k), Child(t, k));
    if was == now then Holds(field)
    else if was.None? then Holds(now)
    else if now.Some? && SameKind(was.value, now.value) then Clash
    else StrictWhole(was, now, field)
  }

  function Names(n: nat): set<string> {
    set i | 0 <= i < n :: Name(i)
  }

  ghost function ArrayInObject(b: Json, o: Json, t: Json): Merge
    requires b.Arr? && o.Arr? && t.Obj?
  {
    Collect(Names(|b.items|) + Names(|o.items|) + t.fields.Keys, k => ItemField(b, o, t, k))
  }

  // The fields of an object.

  lemma {:induction false} FieldOpsJoined(ord: KeyOrder, x: Json, y: Json, keys: seq<string>, ops: string -> seq<Op>)
    requires x.Obj? && y.Obj? && forall k :: ops(k) == FieldDiff(ord, x, y, k)
    ensures FieldOps(ord, x, y, keys) == Joined(keys, ops)
    decreases |keys|
  {
    if keys != [] {
      FieldOpsJoined(ord, x, y, keys[1..], ops);
    }
  }

  lemma {:induction false} LandingIsStrict(ord: KeyOrder, x: Json, y: Json, t: Json)
    requires SameKind(x, y)
    ensures AsMerge(Landing(x, t, Diff(ord, x, y))) == Strict(ord, x, y, Some(t))
    decreases x, 3
  {
    DiffEmptyIffEqual(ord, x, y);
    if x != y {
      StrictByKind(ord, x, y, t);
      if !t.Obj? && !t.Arr? {
        BareTakesNothing(ord, x, y, t);
      } else if x.Obj? {
        ObjectIsStrict(ord, x, y, t);
      } else if t.Arr? {
        ArrayIsStrict(ord, x, y, t);
      } else {
        ArrayLandsInObject(ord, x, y, t);
      }
    }
  }

  /** What the strict merge of a changed value is, by the kind of theirs. */
  lemma StrictByKind(ord: KeyOrder, x: Json, y: Json, t: Json)
    requires SameKind(x, y) && x != y
    ensures !t.Obj? && !t.Arr? ==> Strict(ord, x, y, Some(t)) == Clash
    ensures x.Arr? && t.Arr? ==> Strict(ord, x, y, Some(t)) == StrictArrays(ord, x, y, t)
    ensures x.Arr? && t.Obj? ==> Strict(ord, x, y, Some(t)) == ArrayInObject(x, y, t)
  {
  }

  lemma BareTakesNothing(ord: KeyOrder, x: Json, y: Json, t: Json)
    requires SameKind(x, y) && x != y && !t.Obj? && !t.Arr?
    ensures Landing(x, t, Diff(ord, x, y)) == None
  {
    var ops := Diff(ord, x, y);
    DiffEmptyIffEqual(ord, x, y);
    DiffEdits(ord, x, y);
    forall op | op in ops ensures op.path != [] {
      assert Edits(x, y, op);
    }
    GuardedPaths(x, ops);
    assert Guarded(x, ops)[0].path != [];
  }

  /** A changed field's operations make its child of `d` merge. */
  lemma {:induction false} StrictFieldLands(ord: KeyOrder, x: Json, y: Json, t: Json, k: string, d: Json)
    requires x.Obj? && y.Obj? && k in x.fields && (d.Obj? || d.Arr?) && Child(d, k) == Child(t, k)
    ensures LandsIn(x, t, d, FieldDiff(ord, x, y, k), k, StrictField(ord, x, y, t, k))
    decreases x, 0
  {
    if k in y.fields && SameKind(x.fields[k], y.fields[k]) {
      var (c, e) := (x.fields[k], y.fields[k]);
      var below := Diff(ord, c, e);
      DiffEmptyIffEqual(ord, c, e);
      DiffEdits(ord, c, e);
      BelowLands(x, t, d, k, below);
      assert !ElementMoved(x, t, [], k);
      if Child(t, k).Some? {
        LandingIsStrict(ord, c, e, Child(t, k).value);
      }
    } else if Child(y, k) == Child(x, k) {
      NothingLands(x, t, d, k);
    } else {
      var op := if k in y.fields then Replace([k], y.fields[k]) else Remove([k]);
      assert FieldDiff(ord, x, y, k) == [op];
      WholeLands(x, t, d, k, op, Child(y, k));
    }
  }

  /**
   * A field that theirs lacks is lacking still, one that is not changed is as theirs has it, and only a removal drops
   * one.
   */
  lemma StrictFieldIs(ord: KeyOrder, x: Json, y: Json, t: Json, k: string)
    requires x.Obj? && y.Obj? && k in x.fields
    ensures var m := StrictField(ord, x, y, t, k);
            && (Child(t, k).None? && m.Holds? ==> m.value.None?)
            && (FieldDiff(ord, x, y, k) == [] ==> m == Holds(Child(t, k)))
            && (k in y.fields && Child(t, k).Some? ==> m != Holds(None))
    ensures Child(y, k) == Child(x, k) ==> FieldDiff(ord, x, y, k) == []
  {
    if k in y.fields && SameKind(x.fields[k], y.fields[k]) {
      DiffEmptyIffEqual(ord, x.fields[k], y.fields[k]);
      assert FieldDiff(ord, x, y, k) == Under(k, Diff(ord, x.fields[k], y.fields[k]));
      assert FieldDiff(ord, x, y, k) == [] <==> x.fields[k] == y.fields[k];
      StrictStays(ord, x.fields[k], y.fields[k], Child(t, k));
    } else {
      assert FieldDiff(ord, x, y, k) == [] <==> Child(y, k) == Child(x, k);
    }
  }

  lemma AddedFieldLands(ord: KeyOrder, x: Json, y: Json, t: Json, k: string, d: Json)
    requires x.Obj? && y.Obj? && k !in x.fields && k in y.fields && t.Obj? && d.Obj? && Child(d, k) == Child(t, k)
    ensures LandsIn(x, t, d, FieldDiff(ord, x, y, k), k, StrictField(ord, x, y, t, k))
  {
    var op := Add([k], y.fields[k]);
    LandingOne(x, t, d, op);
    assert Parent(op.path) == [] && Get(x, []) == Some(x) && Get(t, []) == Some(t);
    assert !EditsMovedElement(x, t, op);
  }

  lemma {:induction false} ObjectIsStrict(ord: KeyOrder, x: Json, y: Json, t: Json)
    requires x.Obj? && y.Obj? && x != y && (t.Obj? || t.Arr?)
    ensures AsMerge(Landing(x, t, Diff(ord, x, y))) == Strict(ord, x, y, Some(t))
    decreases x, 2
  {
    var (keys, ops) := (DiffOrder(ord, x, y), k => FieldDiff(ord, x, y, k));
    DiffOrderLists(ord, x, y);
    FieldOpsJoined(ord, x, y, keys, ops);
    assert Landing(x, t, Diff(ord, x, y)) == LandingOn(x, t, t, Joined(keys, ops));
    if t.Obj? {
      StrictFieldsLand(ord, x, y, t, keys, ops);
    } else if DropsFromEnd(ord, x, y) {
      StrictItemsOfObject(ord, x, y, t, ops);
    }
  }

  lemma {:induction false} StrictFieldsLand(ord: KeyOrder, x: Json, y: Json, t: Json, keys: seq<string>,
          ops: string -> seq<Op>)
    requires x.Obj? && y.Obj? && x != y && t.Obj? && Listing(keys, x.fields.Keys + y.fields.Keys)
    requires forall k :: ops(k) == FieldDiff(ord, x, y, k)
    ensures AsMerge(LandingOn(x, t, t, Joined(keys, ops))) == Strict(ord, x, y, Some(t))
    decreases x, 1
  {
    var field := k => StrictField(ord, x, y, t, k);
    forall k | k in keys ensures LandsAs(x, t, ops(k), k, field(k)) {
      forall d: Json | d.Obj? && Child(d, k) == Child(t, k) ensures LandsIn(x, t, d, ops(k), k, field(k)) {
        if k in x.fields {
          StrictFieldLands(ord, x, y, t, k, d);
        } else {
          AddedFieldLands(ord, x, y, t, k, d);
        }
      }
    }
    assert Members(keys) == x.fields.Keys + y.fields.Keys;
    FieldsLand(x, t, keys, ops, field, AllKeys(x, y, t));
  }

  lemma {:induction false} StrictItemsOfObject(ord: KeyOrder, x: Json, y: Json, t: Json, ops: string -> seq<Op>)
    requires x.Obj? && y.Obj? && x != y && t.Arr? && DropsFromEnd(ord, x, y)
    requires forall k :: ops(k) == FieldDiff(ord, x, y, k)
    ensures AsMerge(LandingOn(x, t, t, Joined(DiffOrder(ord, x, y), ops))) == Strict(ord, x, y, Some(t))
    decreases x, 1
  {
    var field := k => StrictField(ord, x, y, t, k);
    forall k | k in x.fields ensures Lands(x, t, ops(k), k, field(k)) {
      forall d: Json | d.Arr? && Child(d, k) == Child(t, k) ensures LandsIn(x, t, d, ops(k), k, field(k)) {
        StrictFieldLands(ord, x, y, t, k, d);
      }
      StrictFieldIs(ord, x, y, t, k);
    }
    forall k | k in x.fields
      ensures k in y.fields && Child(t, k).Some? ==> field(k) != Holds(None)
      ensures Child(y, k) == Child(x, k) ==> ops(k) == []
    {
      StrictFieldIs(ord, x, y, t, k);
    }
    ObjectLands(ord, x, y, t, ops, field);
  }

  // The elements of an array.

  lemma MovedHere(x: Json, t: Json, i: nat)
    requires x.Arr? && t.Arr? && i < |x.items|
    ensures ElementMoved(x, t, [], Name(i)) <==> Moved(x, t, i)
  {
    IndexOfName(i);
  }

  lemma {:induction false} StrictItemLands(ord: KeyOrder, x: Json, y: Json, t: Json, i: nat, d: Json)
    requires x.Arr? && y.Arr? && t.Arr? && i < |x.items| && d.Arr? && At(d, i) == At(t, i)
    ensures LandsIn(x, t, d, ElementDiff(ord, x, y, i), Name(i), StrictItem(ord, x, y, t, i))
    decreases x, 0
  {
    var k := Name(i);
    IndexOfName(i);
    if i < |y.items| && SameKind(x.items[i], y.items[i]) {
      var (c, e) := (x.items[i], y.items[i]);
      var below := Diff(ord, c, e);
      DiffEmptyIffEqual(ord, c, e);
      DiffEdits(ord, c, e);
      BelowLands(x, t, d, k, below);
      MovedHere(x, t, i);
      if At(t, i).Some? {
        LandingIsStrict(ord, c, e, t.items[i]);
      }
    } else if At(y, i) == At(x, i) {
      NothingLands(x, t, d, k);
    } else {
      ChangedItemOp(ord, x, y, i);
      WholeLands(x, t, d, k, ElementDiff(ord, x, y, i)[0], At(y, i));
    }
  }

  lemma ChangedItemOp(ord: KeyOrder, x: Json, y: Json, i: nat)
    requires x.Arr? && y.Arr? && i < |x.items| && At(y, i) != At(x, i)
    requires i < |y.items| ==> !SameKind(x.items[i], y.items[i])
    ensures ElementDiff(ord, x, y, i) == [if i < |y.items| then Replace([Name(i)], y.items[i]) else Remove([Name(i)])]
  {
  }

  /** Theirs, once its elements from `n` on are merged. */
  ghost function MergedFrom(ord: KeyOrder, x: Json, y: Json, t: Json, n: nat): Json
    requires x.Arr? && y.Arr? && t.Arr? && n <= |x.items|
  {
    Arr(t.items[..if n <= |t.items| then n else |t.items|] + StrictItems(ord, x, y, t, n) + From(t.items, |x.items|))
  }

  lemma {:induction false} NothingPastTheirs(ord: KeyOrder, x: Json, y: Json, t: Json, n: nat)
    requires x.Arr? && y.Arr? && t.Arr? && n >= |t.items|
    ensures StrictItems(ord, x, y, t, n) == []
    decreases |x.items| - n
  {
    if n < |x.items| {
      if n < |y.items| && SameKind(x.items[n], y.items[n]) {
        StrictStays(ord, x.items[n], y.items[n], None);
      }
      NothingPastTheirs(ord, x, y, t, n + 1);
    }
  }

  lemma StrictItemsStep(ord: KeyOrder, x: Json, y: Json, t: Json, i: nat)
    requires x.Arr? && y.Arr? && t.Arr? && i < |x.items|
    ensures var m := StrictItem(ord, x, y, t, i);
            StrictItems(ord, x, y, t, i) == (if Kept(m) then [m.value.value] else []) + StrictItems(ord, x, y, t, i + 1)
  {
  }

  lemma MergedBefore(ord: KeyOrder, x: Json, y: Json, t: Json, i: nat)
    requires x.Arr? && y.Arr? && t.Arr? && i < |x.items| && i < |t.items|
    ensures var (m, back) := (StrictItem(ord, x, y, t, i), StrictItems(ord, x, y, t, i + 1) + From(t.items, |x.items|));
            && MergedFrom(ord, x, y, t, i + 1).items == t.items[..i] + [t.items[i]] + back
            && MergedFrom(ord, x, y, t, i).items == t.items[..i] + (if Kept(m) then [m.value.value] else []) + back
  {
    var m := StrictItem(ord, x, y, t, i);
    StrictItemsStep(ord, x, y, t, i);
    Regrouped(t.items, i, if Kept(m) then [m.value.value] else [], StrictItems(ord, x, y, t, i + 1),
      From(t.items, |x.items|));
  }

  lemma Regrouped(items: seq<Json>, i: nat, piece: seq<Json>, rest: seq<Json>, more: seq<Json>)
    requires i < |items|
    ensures items[..i + 1] + rest + more == items[..i] + [items[i]] + (rest + more)
    ensures items[..i] + (piece + rest) + more == items[..i] + piece + (rest + more)
  {
  }

  lemma MergedPast(ord: KeyOrder, x: Json, y: Json, t: Json, n: nat)
    requires x.Arr? && y.Arr? && t.Arr? && |t.items| <= n <= |x.items|
    ensures MergedFrom(ord, x, y, t, n) == t
  {
    NothingPastTheirs(ord, x, y, t, n);
    assert t.items[..|t.items|] + [] + From(t.items, |x.items|) == t.items;
  }

  /** Merged from the end, an element stands where it stood until its turn. */
  lemma MergeOneMore(ord: KeyOrder, x: Json, y: Json, t: Json, i: nat)
    requires x.Arr? && y.Arr? && t.Arr? && i < |x.items|
    ensures At(MergedFrom(ord, x, y, t, i + 1), i) == At(t, i)
    ensures var m := StrictItem(ord, x, y, t, i);
            m.Holds? ==> Put(MergedFrom(ord, x, y, t, i + 1), Name(i), m.value) == MergedFrom(ord, x, y, t, i)
  {
    var m := StrictItem(ord, x, y, t, i);
    IndexOfName(i);
    if i < |t.items| {
      MergedBefore(ord, x, y, t, i);
      var back := StrictItems(ord, x, y, t, i + 1) + From(t.items, |x.items|);
      ReplaceMiddle(t.items[..i], t.items[i], back, if m.Holds? then m.value else None, Name(i));
    } else {
      MergedPast(ord, x, y, t, i);
      MergedPast(ord, x, y, t, i + 1);
    }
  }

  ghost predicate AnyItemClash(ord: KeyOrder, x: Json, y: Json, t: Json, n: nat)
    requires x.Arr? && y.Arr? && t.Arr? && n <= |x.items|
  {
    exists i | 0 <= i < n :: StrictItem(ord, x, y, t, i).Clash?
  }

  lemma AnyItemClashSnoc(ord: KeyOrder, x: Json, y: Json, t: Json, n: nat)
    requires x.Arr? && y.Arr? && t.Arr? && n < |x.items|
    ensures AnyItemClash(ord, x, y, t, n + 1) <==> AnyItemClash(ord, x, y, t, n) || StrictItem(ord, x, y, t, n).Clash?
  {
  }

  lemma {:induction false} ElementsLand(ord: KeyOrder, x: Json, y: Json, t: Json, n: nat)
    requires x.Arr? && y.Arr? && t.Arr? && n <= |x.items|
    ensures LandingOn(x, t, MergedFrom(ord, x, y, t, n), ElementOps(ord, x, y, n))
         == if AnyItemClash(ord, x, y, t, n) then None else Some(MergedFrom(ord, x, y, t, 0))
    decreases x, 1, n
  {
    if n > 0 {
      var d := MergedFrom(ord, x, y, t, n);
      MergeOneMore(ord, x, y, t, n - 1);
      StrictItemLands(ord, x, y, t, n - 1, d);
      LandingConcat(x, t, d, ElementDiff(ord, x, y, n - 1), ElementOps(ord, x, y, n - 1));
      AnyItemClashSnoc(ord, x, y, t, n - 1);
      ElementsLand(ord, x, y, t, n - 1);
    }
  }

  lemma AppendLands(x: Json, t: Json, front: seq<Json>, back: seq<Json>, n: nat, v: Json)
    requires x.Arr? && t.Arr?
    ensures LandingOn(x, t, Arr(front + back), [Add([Name(n)], v)])
         == if multiset(t.items)[v] > multiset(x.items)[v] || n > |front + back| then None
            else Some(Arr((front + back)[..n] + [v] + (front + back)[n..]))
  {
    var op := Add([Name(n)], v);
    LandingOne(x, t, Arr(front + back), op);
    assert Parent(op.path) == [] && Get(x, []) == Some(x) && Get(t, []) == Some(t);
    assert !EditsMovedElement(x, t, op);
    IndexOfName(n);
    assert Index("-") == None;
  }

  lemma CollideCons(x: Json, t: Json, v: Json, added: seq<Json>)
    requires x.Arr? && t.Arr?
    ensures Collide(x, t, [v] + added) <==> multiset(t.items)[v] > multiset(x.items)[v] || Collide(x, t, added)
  {
    assert v in [v] + added;
    assert forall w :: w in [v] + added <==> w == v || w in added;
  }

  lemma {:induction false} AppendsLand(x: Json, y: Json, t: Json, front: seq<Json>, back: seq<Json>, n: nat)
    requires x.Arr? && y.Arr? && t.Arr? && n == |front| <= |y.items|
    ensures LandingOn(x, t, Arr(front + back), Appends(n, y))
         == if Collide(x, t, y.items[n..]) then None else Some(Arr(front + y.items[n..] + back))
    decreases |y.items| - n
  {
    if n == |y.items| {
      assert front + y.items[n..] + back == front + back;
    } else {
      var (v, more) := (y.items[n], y.items[n + 1..]);
      FirstAppendLands(x, y, t, front, back, n);
      assert y.items[n..] == [v] + more;
      CollideCons(x, t, v, more);
      AppendsLand(x, y, t, front + [v], back, n + 1);
      Concat4(front, [v], more, back);
    }
  }

  lemma Concat4(a: seq<Json>, b: seq<Json>, c: seq<Json>, d: seq<Json>)
    ensures a + b + c + d == a + (b + c) + d
  {
  }

  lemma NothingBetween(a: seq<Json>, b: seq<Json>)
    ensures a + [] + b == a + b
  {
  }

  lemma FirstAppendLands(x: Json, y: Json, t: Json, front: seq<Json>, back: seq<Json>, n: nat)
    requires x.Arr? && y.Arr? && t.Arr? && n == |front| < |y.items|
    ensures LandingOn(x, t, Arr(front + back), Appends(n, y))
         == if multiset(t.items)[y.items[n]] > multiset(x.items)[y.items[n]] then None
            else LandingOn(x, t, Arr(front + [y.items[n]] + back), Appends(n + 1, y))
  {
    var v := y.items[n];
    AppendLands(x, t, front, back, n, v);
    LandingConcat(x, t, Arr(front + back), [Add([Name(n)], v)], Appends(n + 1, y));
    assert (front + back)[..n] == front && (front + back)[n..] == back;
  }

  lemma {:induction false} AllItemsMerged(ord: KeyOrder, x: Json, y: Json, t: Json, n: nat)
    requires x.Arr? && y.Arr? && t.Arr? && n <= |x.items| && |x.items| <= |y.items|
    requires |x.items| <= |t.items| && !AnyItemClash(ord, x, y, t, |x.items|)
    ensures |StrictItems(ord, x, y, t, n)| == |x.items| - n
    decreases |x.items| - n
  {
    if n < |x.items| {
      AllItemsMerged(ord, x, y, t, n + 1);
      ItemStays(ord, x, y, t, n);
    }
  }

  lemma ItemStays(ord: KeyOrder, x: Json, y: Json, t: Json, i: nat)
    requires x.Arr? && y.Arr? && t.Arr? && i < |x.items| && i < |y.items| && i < |t.items|
    ensures StrictItem(ord, x, y, t, i).Holds? ==> Kept(StrictItem(ord, x, y, t, i))
  {
    if SameKind(x.items[i], y.items[i]) {
      StrictStays(ord, x.items[i], y.items[i], Some(t.items[i]));
    }
  }

  /** What both sides hold neither comes nor goes. */
  lemma StrictStays(ord: KeyOrder, b: Json, o: Json, t: Option<Json>)
    requires SameKind(b, o)
    ensures Strict(ord, b, o, t).Holds? ==> (Strict(ord, b, o, t).value.Some? <==> t.Some?)
  {
  }

  lemma {:induction false} ArrayIsStrict(ord: KeyOrder, x: Json, y: Json, t: Json)
    requires x.Arr? && y.Arr? && t.Arr? && x != y
    ensures AsMerge(Landing(x, t, Diff(ord, x, y))) == StrictArrays(ord, x, y, t)
    decreases x, 2
  {
    var n := |x.items|;
    assert MergedFrom(ord, x, y, t, n) == t;
    ElementsLand(ord, x, y, t, n);
    LandingConcat(x, t, t, ElementOps(ord, x, y, n), Appends(n, y));
    if !AnyItemClash(ord, x, y, t, n) {
      GrowthLands(ord, x, y, t);
    }
  }

  lemma MergedWhole(ord: KeyOrder, x: Json, y: Json, t: Json)
    requires x.Arr? && y.Arr? && t.Arr?
    ensures MergedFrom(ord, x, y, t, 0) == Arr(StrictItems(ord, x, y, t, 0) + From(t.items, |x.items|))
  {
    NothingBefore(t.items, StrictItems(ord, x, y, t, 0), From(t.items, |x.items|));
  }

  lemma NothingBefore(items: seq<Json>, a: seq<Json>, b: seq<Json>)
    ensures items[..0] + a + b == a + b
  {
  }

  lemma GrowthLands(ord: KeyOrder, x: Json, y: Json, t: Json)
    requires x.Arr? && y.Arr? && t.Arr? && !AnyItemClash(ord, x, y, t, |x.items|)
    ensures LandingOn(x, t, MergedFrom(ord, x, y, t, 0), Appends(|x.items|, y))
         == if !AppendsFit(x, y, t) then None
            else Some(Arr(StrictItems(ord, x, y, t, 0) + From(y.items, |x.items|) + From(t.items, |x.items|)))
  {
    var (n, front, back) := (|x.items|, StrictItems(ord, x, y, t, 0), From(t.items, |x.items|));
    MergedWhole(ord, x, y, t);
    if |y.items| <= n {
      assert From(y.items, n) == [];
      NothingBetween(front, back);
    } else if n <= |t.items| {
      AllItemsMerged(ord, x, y, t, 0);
      AppendsLand(x, y, t, front, back, n);
      assert From(y.items, n) == y.items[n..];
    } else {
      assert !AppendsFit(x, y, t);
      AtMostTheirs(ord, x, y, t, 0);
      NoPlaceToAppend(x, y, t, front, back, n);
    }
  }

  lemma NoPlaceToAppend(x: Json, y: Json, t: Json, front: seq<Json>, back: seq<Json>, n: nat)
    requires x.Arr? && y.Arr? && t.Arr? && |front + back| < n < |y.items|
    ensures LandingOn(x, t, Arr(front + back), Appends(n, y)) == None
  {
    AppendLands(x, t, front, back, n, y.items[n]);
    LandingConcat(x, t, Arr(front + back), [Add([Name(n)], y.items[n])], Appends(n + 1, y));
  }

  lemma {:induction false} AtMostTheirs(ord: KeyOrder, x: Json, y: Json, t: Json, n: nat)
    requires x.Arr? && y.Arr? && t.Arr?
    ensures |StrictItems(ord, x, y, t, n)| <= if n <= |t.items| then |t.items| - n else 0
    decreases |x.items| - n
  {
    if n >= |t.items| {
      NothingPastTheirs(ord, x, y, t, n);
    } else if n < |x.items| {
      AtMostTheirs(ord, x, y, t, n + 1);
    }
  }

  // An array whose place an object took.

  function NamesDown(n: nat): seq<string> {
    if n == 0 then [] else [Name(n - 1)] + NamesDown(n - 1)
  }

  function NamesUp(n: nat, end: nat): seq<string>
    decreases end - n
  {
    if n >= end then [] else [Name(n)] + NamesUp(n + 1, end)
  }

  lemma {:induction false} DownListed(n: nat)
    ensures Listing(NamesDown(n), Names(n))
  {
    if n > 0 {
      DownListed(n - 1);
      IndexOfName(n - 1);
      forall i | 0 <= i < n - 1 ensures Name(i) != Name(n - 1) {
        IndexOfName(i);
      }
      DistinctCons(Name(n - 1), NamesDown(n - 1));
      assert Names(n) == Names(n - 1) + {Name(n - 1)};
    }
  }

  lemma {:induction false} UpListed(n: nat, end: nat)
    ensures Distinct(NamesUp(n, end))
    ensures forall k :: k in NamesUp(n, end) <==> Index(k).Some? && n <= Index(k).value < end
    decreases end - n
  {
    if n < end {
      UpListed(n + 1, end);
      IndexOfName(n);
      forall k | Index(k) == Some(n) ensures k == Name(n) {
        NameOfIndex(k);
      }
      DistinctCons(Name(n), NamesUp(n + 1, end));
    }
  }

  /** The operations of an array's diff at the index `k` names. */
  function ItemOps(ord: KeyOrder, x: Json, y: Json, k: string): seq<Op>
    requires x.Arr? && y.Arr?
  {
    match Index(k)
    case None => []
    case Some(i) =>
      if i < |x.items| then ElementDiff(ord, x, y, i)
      else if i < |y.items| then [Add([k], y.items[i])]
      else []
  }

  lemma {:induction false} ElementsJoined(ord: KeyOrder, x: Json, y: Json, n: nat, ops: string -> seq<Op>)
    requires x.Arr? && y.Arr? && n <= |x.items| && forall k :: ops(k) == ItemOps(ord, x, y, k)
    ensures ElementOps(ord, x, y, n) == Joined(NamesDown(n), ops)
  {
    if n > 0 {
      IndexOfName(n - 1);
      ElementsJoined(ord, x, y, n - 1, ops);
    }
  }

  lemma {:induction false} AppendsJoined(ord: KeyOrder, x: Json, y: Json, n: nat, ops: string -> seq<Op>)
    requires x.Arr? && y.Arr? && n >= |x.items| && forall k :: ops(k) == ItemOps(ord, x, y, k)
    ensures Appends(n, y) == Joined(NamesUp(n, |y.items|), ops)
    decreases |y.items| - n
  {
    if n < |y.items| {
      IndexOfName(n);
      AppendsJoined(ord, x, y, n + 1, ops);
    }
  }

  lemma InnerEditClashes(ord: KeyOrder, x: Json, y: Json, t: Json, i: nat)
    requires x.Arr? && y.Arr? && t.Obj? && i < |x.items| && i < |y.items| && SameKind(x.items[i], y.items[i])
    ensures var (k, below) := (Name(i), Diff(ord, x.items[i], y.items[i]));
            Child(x, k).Some? && ItemOps(ord, x, y, k) == Under(k, below)
              && Below(x, t, k, below) == ItemField(x, y, t, k)
  {
    IndexOfName(i);
    DiffEmptyIffEqual(ord, x.items[i], y.items[i]);
    assert ElementDiff(ord, x, y, i) == ValueDiff(ord, Name(i), x.items[i], y.items[i]);
    assert ElementMoved(x, t, [], Name(i));
  }

  lemma ItemFieldLands(ord: KeyOrder, x: Json, y: Json, t: Json, i: nat, d: Json)
    requires x.Arr? && y.Arr? && t.Obj? && d.Obj? && Child(d, Name(i)) == Child(t, Name(i))
    requires i < |x.items| || i < |y.items|
    ensures LandsIn(x, t, d, ItemOps(ord, x, y, Name(i)), Name(i), ItemField(x, y, t, Name(i)))
  {
    var k := Name(i);
    IndexOfName(i);
    if i >= |x.items| {
      var op := Add([k], y.items[i]);
      LandingOne(x, t, d, op);
      assert Parent(op.path) == [] && Get(x, []) == Some(x) && Get(t, []) == Some(t);
      assert !EditsMovedElement(x, t, op);
    } else if i < |y.items| && SameKind(x.items[i], y.items[i]) {
      InnerEditClashes(ord, x, y, t, i);
      DiffEdits(ord, x.items[i], y.items[i]);
      BelowLands(x, t, d, k, Diff(ord, x.items[i], y.items[i]));
    } else if At(y, i) == At(x, i) {
      assert ElementDiff(ord, x, y, i) == [];
      NothingLands(x, t, d, k);
    } else {
      ChangedItemOp(ord, x, y, i);
      WholeLands(x, t, d, k, ElementDiff(ord, x, y, i)[0], At(y, i));
    }
  }

  lemma InNames(k: string, n: nat)
    ensures k in Names(n) <==> Index(k).Some? && Index(k).value < n
  {
    if k in Names(n) {
      var i :| 0 <= i < n && Name(i) == k;
      IndexOfName(i);
    }
    if Index(k).Some? {
      NameOfIndex(k);
    }
  }

  lemma NamesListed(x: Json, y: Json)
    requires x.Arr? && y.Arr?
    ensures Listing(NamesDown(|x.items|) + NamesUp(|x.items|, |y.items|), Names(|x.items|) + Names(|y.items|))
  {
    var (n, end) := (|x.items|, |y.items|);
    DownListed(n);
    UpListed(n, end);
    forall k ensures k in Names(end) && k !in Names(n) <==> k in NamesUp(n, end) {
      InNames(k, n);
      InNames(k, end);
    }
    assert forall k :: k in NamesDown(n) + NamesUp(n, end) <==> k in Names(n) + Names(end);
    DistinctConcat(NamesDown(n), NamesUp(n, end));
  }

  lemma ArrayLandsInObject(ord: KeyOrder, x: Json, y: Json, t: Json)
    requires x.Arr? && y.Arr? && t.Obj? && x != y
    ensures AsMerge(Landing(x, t, Diff(ord, x, y))) == ArrayInObject(x, y, t)
  {
    var (n, end) := (|x.items|, |y.items|);
    var (keys, ops) := (NamesDown(n) + NamesUp(n, end), k => ItemOps(ord, x, y, k));
    var field := k => ItemField(x, y, t, k);
    NamesListed(x, y);
    ElementsJoined(ord, x, y, n, ops);
    AppendsJoined(ord, x, y, n, ops);
    JoinedConcat(NamesDown(n), NamesUp(n, end), ops);
    forall k | k in keys ensures LandsAs(x, t, ops(k), k, field(k)) {
      forall d: Json | d.Obj? && Child(d, k) == Child(t, k) ensures LandsIn(x, t, d, ops(k), k, field(k)) {
        var i :| 0 <= i && (i < n || i < end) && Name(i) == k;
        ItemFieldLands(ord, x, y, t, i, d);
      }
    }
    forall k | k !in keys ensures field(k) == Holds(Child(t, k)) {
      NoItemNamed(x, y, k);
    }
    var all := Names(n) + Names(end) + t.fields.Keys;
    assert Members(keys) == Names(n) + Names(end);
    FieldsLand(x, t, keys, ops, field, all);
  }

  lemma NoItemNamed(x: Json, y: Json, k: string)
    requires x.Arr? && y.Arr? && k !in Names(|x.items|) && k !in Names(|y.items|)
    ensures Child(x, k) == None && Child(y, k) == None
  {
    InNames(k, |x.items|);
    InNames(k, |y.items|);
  }
}
