/** What the edits of an object do to an array that stands in its place: they land at the indexes its keys name. */
module IndexedFields {
  import opened Options
  import opened Listings
  import opened Json
  import opened JsonPatch
  import opened PatchMerge
  import opened Landings

  // Elements that merge as fields do.

  /** What stands for an element: what the field of its name merges to, if that is one of `keys`. */
  function Piece(item: Json, k: string, keys: set<string>, field: string -> Merge): seq<Json> {
    if k !in keys || field(k).Clash? then [item]
    else if field(k).value.Some? then [field(k).value.value]
    else []
  }

  function Pieces(items: seq<Json>, lo: nat, hi: nat, keys: set<string>, field: string -> Merge): (r: seq<Json>)
    requires lo <= hi <= |items|
    ensures |r| <= hi - lo
    decreases hi
  {
    if lo == hi then []
    else Pieces(items, lo, hi - 1, keys, field) + Piece(items[hi - 1], Name(hi - 1), keys, field)
  }

  lemma {:induction false} PiecesSplit(items: seq<Json>, lo: nat, mid: nat, hi: nat, keys: set<string>,
          field: string -> Merge)
    requires lo <= mid <= hi <= |items|
    ensures Pieces(items, lo, hi, keys, field)
         == Pieces(items, lo, mid, keys, field) + Pieces(items, mid, hi, keys, field)
    decreases hi
  {
    if mid < hi {
      PiecesSplit(items, lo, mid, hi - 1, keys, field);
    }
  }

  lemma {:induction false} PiecesAlike(items: seq<Json>, lo: nat, hi: nat, keys: set<string>, more: set<string>,
          field: string -> Merge)
    requires lo <= hi <= |items|
    requires forall i | lo <= i < hi :: Piece(items[i], Name(i), keys, field) == Piece(items[i], Name(i), more, field)
    ensures Pieces(items, lo, hi, keys, field) == Pieces(items, lo, hi, more, field)
    decreases hi
  {
    if lo < hi {
      PiecesAlike(items, lo, hi - 1, keys, more, field);
    }
  }

  lemma {:induction false} NoneDropped(items: seq<Json>, lo: nat, hi: nat, keys: set<string>, field: string -> Merge)
    requires lo <= hi <= |items|
    requires forall i | lo <= i < hi && Name(i) in keys :: field(Name(i)) != Holds(None)
    ensures |Pieces(items, lo, hi, keys, field)| == hi - lo
    decreases hi
  {
    if lo < hi {
      NoneDropped(items, lo, hi - 1, keys, field);
    }
  }

  lemma {:induction false} NothingEdited(items: seq<Json>, hi: nat, field: string -> Merge)
    requires hi <= |items|
    ensures Pieces(items, 0, hi, {}, field) == items[..hi]
  {
    if hi > 0 {
      NothingEdited(items, hi - 1, field);
    }
  }

  /** `d` with the element of the name `k`, if it has one, replaced or dropped. */
  function WithItem(d: Json, k: string, v: Option<Json>): Json
    requires d.Arr?
  {
    if Child(d, k).None? then d
    else if v.Some? then WithChild(d, k, v.value)
    else Arr(d.items[..Index(k).value] + d.items[Index(k).value + 1..])
  }

  /** `ops` make the element of the name `k` merge as `m`, wherever it stands as in theirs. */
  ghost predicate LandsAt(base: Json, theirs: Json, ops: seq<Op>, k: string, m: Merge) {
    forall d: Json | d.Arr? && Child(d, k) == Child(theirs, k) ::
      LandingOn(base, theirs, d, ops) == if m.Clash? then None else Some(WithItem(d, k, m.value))
  }

  function Edited(t: Json, keys: set<string>, field: string -> Merge): Json
    requires t.Arr?
  {
    Arr(Pieces(t.items, 0, |t.items|, keys, field))
  }

  predicate Before(p: string, q: string) {
    Index(p).Some? && Index(q).Some? && Index(p).value < Index(q).value
  }

  predicate Drops(t: Json, k: string, m: Merge) {
    Child(t, k).Some? && m == Holds(None)
  }

  lemma EditElement(items: seq<Json>, i: nat, keys: set<string>, field: string -> Merge)
    requires i < |items| && Name(i) !in keys
    requires forall j | 0 <= j < i && Name(j) in keys :: field(Name(j)) != Holds(None)
    ensures var (n, more) := (|items|, keys + {Name(i)});
            var (front, back) := (Pieces(items, 0, i, keys, field), Pieces(items, i + 1, n, keys, field));
            && |front| == i
            && Pieces(items, 0, n, keys, field) == front + [items[i]] + back
            && Pieces(items, 0, n, more, field) == front + Piece(items[i], Name(i), more, field) + back
  {
    OnlyThere(items, 0, i, i, keys, field);
    OnlyThere(items, i + 1, |items|, i, keys, field);
    SplitAt(items, i, keys, field);
    SplitAt(items, i, keys + {Name(i)}, field);
    NoneDropped(items, 0, i, keys, field);
  }

  lemma OnlyThere(items: seq<Json>, lo: nat, hi: nat, i: nat, keys: set<string>, field: string -> Merge)
    requires lo <= hi <= |items| && !(lo <= i < hi)
    ensures Pieces(items, lo, hi, keys, field) == Pieces(items, lo, hi, keys + {Name(i)}, field)
  {
    IndexOfName(i);
    forall j | lo <= j < hi ensures Name(j) != Name(i) {
      IndexOfName(j);
    }
    PiecesAlike(items, lo, hi, keys, keys + {Name(i)}, field);
  }

  lemma ReplaceMiddle(front: seq<Json>, item: Json, back: seq<Json>, v: Option<Json>, k: string)
    requires Index(k) == Some(|front|)
    ensures var d := Arr(front + [item] + back);
            && Child(d, k) == Some(item)
            && WithItem(d, k, v) == Arr(front + (if v.Some? then [v.value] else []) + back)
  {
    var items := front + [item] + back;
    assert items[|front|] == item;
    assert items[..|front|] == front && items[|front| + 1..] == back;
    if v.Some? {
      assert items[|front| := v.value] == front + [v.value] + back;
    } else {
      assert front + [] + back == front + back;
    }
  }

  /** An element stands where it stood until one before it is dropped. */
  lemma EditPresent(t: Json, keys: set<string>, k: string, field: string -> Merge)
    requires t.Arr? && k !in keys && field(k).Holds? && Child(t, k).Some?
    requires forall l | l in keys && Drops(t, l, field(l)) :: !Before(l, k)
    ensures Child(Edited(t, keys, field), k) == Child(t, k)
    ensures WithItem(Edited(t, keys, field), k, field(k).value) == Edited(t, keys + {k}, field)
  {
    var i := Index(k).value;
    NameOfIndex(k);
    forall j | 0 <= j < i && Name(j) in keys ensures field(Name(j)) != Holds(None) {
      IndexOfName(j);
      assert Drops(t, Name(j), field(Name(j))) ==> Before(Name(j), k);
    }
    EditElement(t.items, i, keys, field);
    var (front, back) := (Pieces(t.items, 0, i, keys, field), Pieces(t.items, i + 1, |t.items|, keys, field));
    ReplaceMiddle(front, t.items[i], back, field(k).value, k);
  }

  lemma EditOneMore(t: Json, keys: set<string>, k: string, field: string -> Merge)
    requires t.Arr? && k !in keys && field(k).Holds?
    requires Child(t, k).None? ==> field(k).value.None?
    requires forall l | l in keys && Drops(t, l, field(l)) :: !Before(l, k)
    ensures Child(Edited(t, keys, field), k) == Child(t, k)
    ensures WithItem(Edited(t, keys, field), k, field(k).value) == Edited(t, keys + {k}, field)
  {
    if Child(t, k).Some? {
      EditPresent(t, keys, k, field);
    } else {
      forall j | 0 <= j < |t.items| ensures Name(j) != k {
        IndexOfName(j);
      }
      PiecesAlike(t.items, 0, |t.items|, keys, keys + {k}, field);
    }
  }

  lemma SplitAt(items: seq<Json>, i: nat, keys: set<string>, field: string -> Merge)
    requires i < |items|
    ensures Pieces(items, 0, |items|, keys, field)
         == Pieces(items, 0, i, keys, field) + Piece(items[i], Name(i), keys, field)
           + Pieces(items, i + 1, |items|, keys, field)
  {
    PiecesSplit(items, 0, i, |items|, keys, field);
    PiecesSplit(items, i, i + 1, |items|, keys, field);
    assert Pieces(items, i, i, keys, field) == [];
  }

  lemma EditNothing(t: Json, keys: set<string>, k: string, field: string -> Merge)
    requires t.Arr? && k !in keys && field(k) == Holds(Child(t, k))
    ensures Edited(t, keys, field) == Edited(t, keys + {k}, field)
  {
    forall j | 0 <= j < |t.items| ensures Index(Name(j)) == Some(j) {
      IndexOfName(j);
    }
    PiecesAlike(t.items, 0, |t.items|, keys, keys + {k}, field);
  }

  ghost predicate Lands(x: Json, t: Json, ops: seq<Op>, k: string, m: Merge) {
    && LandsAt(x, t, ops, k, m)
    && (Child(t, k).None? && m.Holds? ==> m.value.None?)
    && (ops == [] ==> m == Holds(Child(t, k)))
  }

  /** No element is dropped before a change of one behind it. */
  ghost predicate DropsLast(t: Json, keys: seq<string>, ops: string -> seq<Op>, field: string -> Merge) {
    forall i, j | 0 <= i < j < |keys| && Drops(t, keys[i], field(keys[i])) && ops(keys[j]) != [] ::
      !Before(keys[i], keys[j])
  }

  lemma {:induction false} ItemsLand(x: Json, t: Json, done: seq<string>, rest: seq<string>, ops: string -> seq<Op>,
          field: string -> Merge)
    requires t.Arr? && Distinct(done + rest) && DropsLast(t, done + rest, ops, field)
    requires forall k | k in rest :: Lands(x, t, ops(k), k, field(k))
    ensures LandingOn(x, t, Edited(t, Members(done), field), Joined(rest, ops))
         == if AnyClash(rest, field) then None else Some(Edited(t, Members(done + rest), field))
    decreases |rest|
  {
    if rest == [] {
      assert done + rest == done;
    } else {
      var k := rest[0];
      LandingConcat(x, t, Edited(t, Members(done), field), ops(k), Joined(rest[1..], ops));
      ItemLands(x, t, done, rest, ops, field);
      AnyClashCons(rest, field);
      if field(k).Holds? {
        OneMoreDone(done, rest);
        ItemsLand(x, t, done + [k], rest[1..], ops, field);
      }
    }
  }

  lemma OneMoreDone(done: seq<string>, rest: seq<string>)
    requires rest != []
    ensures done + [rest[0]] + rest[1..] == done + rest
  {
  }

  lemma ItemLands(x: Json, t: Json, done: seq<string>, rest: seq<string>, ops: string -> seq<Op>,
          field: string -> Merge)
    requires t.Arr? && rest != [] && Distinct(done + rest) && DropsLast(t, done + rest, ops, field)
    requires Lands(x, t, ops(rest[0]), rest[0], field(rest[0]))
    ensures LandingOn(x, t, Edited(t, Members(done), field), ops(rest[0]))
         == if field(rest[0]).Clash? then None else Some(Edited(t, Members(done + [rest[0]]), field))
  {
    var (k, keys) := (rest[0], Members(done));
    assert Members(done + [k]) == keys + {k};
    NextItem(t, done, rest, ops, field);
    if ops(k) == [] {
      EditNothing(t, keys, k, field);
    } else if field(k).Holds? {
      EditOneMore(t, keys, k, field);
    } else {
      StillThere(t, keys, k, field);
    }
  }

  lemma NextItem(t: Json, done: seq<string>, rest: seq<string>, ops: string -> seq<Op>, field: string -> Merge)
    requires rest != [] && Distinct(done + rest) && DropsLast(t, done + rest, ops, field)
    ensures rest[0] !in done
    ensures ops(rest[0]) != [] ==> forall l | l in done && Drops(t, l, field(l)) :: !Before(l, rest[0])
  {
    var all := done + rest;
    assert all[|done|] == rest[0];
    forall l | l in done
      ensures l != rest[0]
      ensures ops(rest[0]) != [] && Drops(t, l, field(l)) ==> !Before(l, rest[0])
    {
      var i :| 0 <= i < |done| && done[i] == l;
      assert all[i] == l;
      DistinctAt(all, i, |done|);
    }
  }

  lemma StillThere(t: Json, keys: set<string>, k: string, field: string -> Merge)
    requires t.Arr? && k !in keys
    requires forall l | l in keys && Drops(t, l, field(l)) :: !Before(l, k)
    ensures Child(Edited(t, keys, field), k) == Child(t, k)
  {
    var same := l => if l == k then Holds(Child(t, k)) else field(l);
    PiecesAlikeFields(t.items, |t.items|, keys, field, same);
    EditOneMore(t, keys, k, same);
  }

  lemma {:induction false} PiecesAlikeFields(items: seq<Json>, hi: nat, keys: set<string>, f: string -> Merge,
          g: string -> Merge)
    requires hi <= |items| && forall k | k in keys :: f(k) == g(k)
    ensures Pieces(items, 0, hi, keys, f) == Pieces(items, 0, hi, keys, g)
  {
    if hi > 0 {
      PiecesAlikeFields(items, hi - 1, keys, f, g);
    }
  }

  // How many elements are dropped.

  /** The names of the elements before `n` that are dropped. */
  function Dropped(n: nat, keys: set<string>, field: string -> Merge): set<string> {
    if n == 0 then {}
    else
      var (before, k) := (Dropped(n - 1, keys, field), Name(n - 1));
      if k in keys && field(k) == Holds(None) then before + {k} else before
  }

  lemma {:induction false} DroppedName(n: nat, keys: set<string>, field: string -> Merge, k: string)
    ensures k in Dropped(n, keys, field)
       <==> Index(k).Some? && Index(k).value < n && k in keys && field(k) == Holds(None)
  {
    if n > 0 {
      DroppedName(n - 1, keys, field, k);
      IndexOfName(n - 1);
      if Index(k).Some? {
        NameOfIndex(k);
      }
    }
  }

  lemma {:induction false} PiecesCount(items: seq<Json>, n: nat, keys: set<string>, field: string -> Merge)
    requires n <= |items|
    ensures |Pieces(items, 0, n, keys, field)| + |Dropped(n, keys, field)| == n
  {
    if n > 0 {
      PiecesCount(items, n - 1, keys, field);
      DroppedName(n - 1, keys, field, Name(n - 1));
      IndexOfName(n - 1);
    }
  }

  /** The element that `k` names is dropped exactly if the user removed the field. */
  predicate DropsRemoved(y: Json, t: Json, k: string, m: Merge)
    requires y.Obj?
  {
    k !in y.fields <==> Drops(t, k, m)
  }

  /** How many elements are left once the removed fields' are dropped. */
  lemma Remainder(x: Json, y: Json, t: Json, field: string -> Merge)
    requires x.Obj? && y.Obj? && t.Arr? && forall k | k in x.fields :: DropsRemoved(y, t, k, field(k))
    ensures |Edited(t, x.fields.Keys, field).items| + |x.fields.Keys - y.fields.Keys| == |t.items|
  {
    PiecesCount(t.items, |t.items|, x.fields.Keys, field);
    DroppedAreRemoved(x, y, t, field);
  }

  lemma DroppedAreRemoved(x: Json, y: Json, t: Json, field: string -> Merge)
    requires x.Obj? && y.Obj? && t.Arr? && forall k | k in x.fields :: DropsRemoved(y, t, k, field(k))
    ensures Dropped(|t.items|, x.fields.Keys, field) == x.fields.Keys - y.fields.Keys
  {
    forall k ensures k in Dropped(|t.items|, x.fields.Keys, field) <==> k in x.fields.Keys - y.fields.Keys {
      DroppedName(|t.items|, x.fields.Keys, field, k);
      if k in x.fields {
        assert DropsRemoved(y, t, k, field(k));
      }
    }
  }

  // Fields the user added.

  /**
   * An added key names the end of the array, or an index past the elements theirs holds and not past those there are.
   */
  predicate Fits(t: Json, k: string, length: nat)
    requires t.Arr?
  {
    k == "-" || (Index(k).Some? && |t.items| <= Index(k).value <= length)
  }

  predicate AddsFit(t: Json, keys: seq<string>, length: nat)
    requires t.Arr?
  {
    forall j | 0 <= j < |keys| :: Fits(t, keys[j], length + j)
  }

  /** `items` with the value of each key inserted at the index it names. */
  function Grown(items: seq<Json>, keys: seq<string>, fields: map<string, Json>): seq<Json>
    requires forall k | k in keys :: k in fields
    decreases |keys|
  {
    if keys == [] then items
    else
      match InsertIndex(items, keys[0])
      case None => items
      case Some(i) => Grown(items[..i] + [fields[keys[0]]] + items[i..], keys[1..], fields)
  }

  lemma AddsFitCons(t: Json, keys: seq<string>, length: nat)
    requires t.Arr? && keys != []
    ensures AddsFit(t, keys, length) <==> Fits(t, keys[0], length) && AddsFit(t, keys[1..], length + 1)
  {
    if AddsFit(t, keys, length) {
      forall j | 0 <= j < |keys[1..]| ensures Fits(t, keys[1..][j], length + 1 + j) {
        assert Fits(t, keys[j + 1], length + (j + 1));
      }
      assert Fits(t, keys[0], length + 0);
    } else {
      var j :| 0 <= j < |keys| && !Fits(t, keys[j], length + j);
      assert j > 0 ==> keys[1..][j - 1] == keys[j];
    }
  }

  lemma AddLands(x: Json, t: Json, d: Json, k: string, v: Json)
    requires x.Obj? && t.Arr? && d.Arr?
    ensures LandingOn(x, t, d, [Add([k], v)])
         == if !Fits(t, k, |d.items|) then None
            else var i := InsertIndex(d.items, k).value; Some(Arr(d.items[..i] + [v] + d.items[i..]))
  {
    var op := Add([k], v);
    LandingOne(x, t, d, op);
    assert Parent(op.path) == [] && Get(x, []) == Some(x) && Get(t, []) == Some(t);
    assert !EditsMovedElement(x, t, op);
    assert Index("-") == None && Index("length") == None;
  }

  lemma {:induction false} AddsLand(x: Json, y: Json, t: Json, d: Json, keys: seq<string>, ops: string -> seq<Op>)
    requires x.Obj? && y.Obj? && t.Arr? && d.Arr?
    requires forall k | k in keys :: k in y.fields && ops(k) == [Add([k], y.fields[k])]
    ensures LandingOn(x, t, d, Joined(keys, ops))
         == if AddsFit(t, keys, |d.items|) then Some(Arr(Grown(d.items, keys, y.fields))) else None
    decreases |keys|
  {
    if keys != [] {
      var (k, v) := (keys[0], y.fields[keys[0]]);
      LandingConcat(x, t, d, ops(k), Joined(keys[1..], ops));
      AddLands(x, t, d, k, v);
      AddsFitCons(t, keys, |d.items|);
      if Fits(t, k, |d.items|) {
        var i := InsertIndex(d.items, k).value;
        AddsLand(x, y, t, Arr(d.items[..i] + [v] + d.items[i..]), keys[1..], ops);
      }
    }
  }

  // One child of an object or of an array.

  /** `d` with its child `k` changed to `v`, or dropped. */
  function Put(d: Json, k: string, v: Option<Json>): Json
    requires d.Obj? || d.Arr?
  {
    if d.Obj? then Obj(With(d.fields, k, v)) else WithItem(d, k, v)
  }

  /** `ops` make the child `k` of `d` merge as `m`. */
  ghost predicate LandsIn(x: Json, t: Json, d: Json, ops: seq<Op>, k: string, m: Merge)
    requires d.Obj? || d.Arr?
  {
    LandingOn(x, t, d, ops) == if m.Clash? then None else Some(Put(d, k, m.value))
  }

  lemma PutBack(d: Json, k: string)
    requires d.Obj? || d.Arr?
    ensures Put(d, k, Child(d, k)) == d
  {
    if Child(d, k).Some? {
      ChildOfWithChild(d, k, Child(d, k).value, Child(d, k).value);
    } else if d.Obj? {
      assert d.fields - {k} == d.fields;
    }
  }

  lemma NothingLands(x: Json, t: Json, d: Json, k: string)
    requires (d.Obj? || d.Arr?) && Child(d, k) == Child(t, k)
    ensures LandsIn(x, t, d, [], k, Holds(Child(t, k)))
  {
    PutBack(d, k);
  }

  /** How a child merges that the operations `below` are for. */
  function Below(x: Json, t: Json, k: string, below: seq<Op>): Merge
    requires Child(x, k).Some?
  {
    if below == [] then Holds(Child(t, k))
    else if Child(t, k).None? || ElementMoved(x, t, [], k) then Clash
    else AsMerge(Landing(Child(x, k).value, Child(t, k).value, below))
  }

  lemma BelowLands(x: Json, t: Json, d: Json, k: string, below: seq<Op>)
    requires Child(x, k).Some? && (d.Obj? || d.Arr?) && Child(d, k) == Child(t, k)
    requires forall op | op in below :: op.path != []
    ensures LandsIn(x, t, d, Under(k, below), k, Below(x, t, k, below))
  {
    if below == [] {
      NothingLands(x, t, d, k);
    } else {
      LandingUnder(x, t, k, d, below);
    }
  }

  /** The replacement or removal of a child lands where it is as it was. */
  lemma WholeLands(x: Json, t: Json, d: Json, k: string, op: Op, now: Option<Json>)
    requires Child(x, k).Some? && (d.Obj? || d.Arr?) && Child(d, k) == Child(t, k)
    requires op == if now.Some? then Replace([k], now.value) else Remove([k])
    ensures LandsIn(x, t, d, [op], k, if Child(t, k) == Child(x, k) then Holds(now) else Clash)
  {
    LandingOne(x, t, d, op);
    GetOne(x, k);
    GetOne(d, k);
    assert [k][1..] == [] && !Blocks(x, t, op);
    if Child(t, k) == Child(x, k) && now.Some? {
      assert Apply(d, op) == Some(WithChild(d, k, now.value));
    }
  }

  // The whole edit of the object.

  /**
   * Whether the user's edit drops no field before it changes one whose key names a later index: it drops from the end.
   */
  predicate DropsFromEnd(ord: KeyOrder, x: Json, y: Json)
    requires x.Obj? && y.Obj?
  {
    var keys := FromEnd(ord, x.fields.Keys);
    forall i, j | 0 <= i < j < |keys| && keys[i] !in y.fields && Child(y, keys[j]) != Child(x, keys[j]) ::
      !Before(keys[i], keys[j])
  }

  /** Objects list the keys that name indexes in ascending order, as properties are. */
  ghost predicate Ascends(ord: KeyOrder) {
    forall s, i, j | 0 <= i < j < |ord(s)| :: !Before(ord(s)[j], ord(s)[i])
  }

  /** So a diff, which takes the keys of an object from the end, drops elements from the end. */
  lemma AscendingDropsFromEnd(ord: KeyOrder, x: Json, y: Json)
    requires Ascends(ord) && x.Obj? && y.Obj?
    ensures DropsFromEnd(ord, x, y)
  {
    var list := ord(x.fields.Keys);
    forall i, j | 0 <= i < j < |list| ensures !Before(Reversed(list)[i], Reversed(list)[j]) {
      ReversedAt(list, i);
      ReversedAt(list, j);
    }
  }

  /**
   * The merge of an edit of the object `x` to `y` with the array `t` in its place: `field` says how each field of `x`
   * merges with the element its key names, and each added one goes in at the index its key names.
   */
  ghost function InArray(ord: KeyOrder, x: Json, y: Json, t: Json, field: string -> Merge): Merge
    requires x.Obj? && y.Obj? && t.Arr?
  {
    var (kept, added) := (Edited(t, x.fields.Keys, field).items, Added(ord, x, y));
    if (exists k :: k in x.fields && field(k).Clash?) || !AddsFit(t, added, |kept|) then Clash
    else Holds(Some(Arr(Grown(kept, added, y.fields))))
  }

  function Added(ord: KeyOrder, x: Json, y: Json): (keys: seq<string>)
    requires x.Obj? && y.Obj?
    ensures forall k :: k in keys <==> k in y.fields && k !in x.fields
  {
    assert Listing(ord(y.fields.Keys - x.fields.Keys), y.fields.Keys - x.fields.Keys);
    ord(y.fields.Keys - x.fields.Keys)
  }

  /**
   * Operations that each make one element merge as `field` says, and add what was added, make the whole array merge so.
   */
  lemma ObjectLands(ord: KeyOrder, x: Json, y: Json, t: Json, ops: string -> seq<Op>, field: string -> Merge)
    requires x.Obj? && y.Obj? && t.Arr? && DropsFromEnd(ord, x, y)
    requires forall k | k in x.fields ::
             Lands(x, t, ops(k), k, field(k)) && (Child(y, k) == Child(x, k) ==> ops(k) == [])
    requires forall k | k in x.fields && k in y.fields && Child(t, k).Some? :: field(k) != Holds(None)
    requires forall k | k in y.fields && k !in x.fields :: ops(k) == [Add([k], y.fields[k])]
    ensures AsMerge(LandingOn(x, t, t, Joined(DiffOrder(ord, x, y), ops))) == InArray(ord, x, y, t, field)
  {
    var (keys, added) := (FromEnd(ord, x.fields.Keys), Added(ord, x, y));
    ChangesLand(ord, x, y, t, ops, field);
    JoinedConcat(keys, added, ops);
    LandingConcat(x, t, t, Joined(keys, ops), Joined(added, ops));
    AddsLand(x, y, t, Edited(t, x.fields.Keys, field), added, ops);
  }

  lemma ChangesLand(ord: KeyOrder, x: Json, y: Json, t: Json, ops: string -> seq<Op>, field: string -> Merge)
    requires x.Obj? && y.Obj? && t.Arr? && DropsFromEnd(ord, x, y)
    requires forall k | k in x.fields ::
             Lands(x, t, ops(k), k, field(k)) && (Child(y, k) == Child(x, k) ==> ops(k) == [])
    requires forall k | k in x.fields && k in y.fields && Child(t, k).Some? :: field(k) != Holds(None)
    ensures LandingOn(x, t, t, Joined(FromEnd(ord, x.fields.Keys), ops))
         == if exists k :: k in x.fields && field(k).Clash? then None else Some(Edited(t, x.fields.Keys, field))
  {
    var keys := FromEnd(ord, x.fields.Keys);
    assert Listing(keys, x.fields.Keys) && Members(keys) == x.fields.Keys;
    NothingEdited(t.items, |t.items|, field);
    assert [] + keys == keys && t.items[..|t.items|] == t.items && Members([]) == {};
    DropsInOrder(ord, x, y, t, ops, field);
    ItemsLand(x, t, [], keys, ops, field);
    assert AnyClash(keys, field) <==> exists k :: k in x.fields && field(k).Clash?;
  }

  lemma DropsInOrder(ord: KeyOrder, x: Json, y: Json, t: Json, ops: string -> seq<Op>, field: string -> Merge)
    requires x.Obj? && y.Obj? && t.Arr? && DropsFromEnd(ord, x, y)
    requires forall k | k in x.fields :: Child(y, k) == Child(x, k) ==> ops(k) == []
    requires forall k | k in x.fields && k in y.fields && Child(t, k).Some? :: field(k) != Holds(None)
    ensures DropsLast(t, FromEnd(ord, x.fields.Keys), ops, field)
  {
  }
}
