/** Where patches land: field by field, and under a key as on the child alone. Conflicts are decided against theirs. */
module Landings {
  import opened Options
  import opened Listings
  import opened Json
  import opened JsonPatch
  import opened PatchMerge

  /** How one value merges: to a value or its absence, unless the two sides clash. */
  datatype Merge = Clash | Holds(value: Option<Json>)

  function AsMerge(landed: Option<Json>): Merge {
    if landed.Some? then Holds(landed) else Clash
  }

  predicate Kept(m: Merge) {
    m.Holds? && m.value.Some?
  }

  function AllKeys(b: Json, o: Json, t: Json): set<string>
    requires b.Obj? && o.Obj? && t.Obj?
  {
    b.fields.Keys + o.fields.Keys + t.fields.Keys
  }

  /** The object whose fields merge to what `field` says, unless one of them clashes. */
  ghost function Collect(keys: set<string>, field: string -> Merge): Merge {
    if exists k :: k in keys && field(k).Clash? then Clash
    else Holds(Some(Obj(map k | k in keys && Kept(field(k)) :: field(k).value.value)))
  }

  lemma CollectedField(keys: set<string>, field: string -> Merge, m: Json, k: string)
    requires Collect(keys, field) == Holds(Some(m))
    ensures m.Obj? && if k in keys then field(k) == Holds(Child(m, k)) else Child(m, k) == None
  {
  }

  lemma CollectHolds(keys: set<string>, field: string -> Merge, m: Json)
    requires m.Obj? && forall k :: field(k) == Holds(Child(m, k))
    requires m.fields.Keys <= keys
    ensures Collect(keys, field) == Holds(Some(m))
  {
    var merged := map k | k in keys && Kept(field(k)) :: field(k).value.value;
    forall k ensures k in merged <==> k in m.fields {
      assert field(k) == Holds(Child(m, k));
    }
    forall k | k in m.fields ensures merged[k] == m.fields[k] {
      assert field(k) == Holds(Child(m, k));
    }
    assert merged == m.fields;
  }

  lemma CollectSame(keys: set<string>, f: string -> Merge, g: string -> Merge)
    requires forall k | k in keys :: f(k) == g(k)
    ensures Collect(keys, f) == Collect(keys, g)
  {
    if Collect(keys, f).Holds? {
      assert Collect(keys, f).value.value.fields == Collect(keys, g).value.value.fields;
    }
  }

  // Every decision about an operation under a key is a decision about the children alone. A child that theirs lacks
  // decides as a `null` there would.

  function ChildOrNull(j: Json, k: string): Json {
    match Child(j, k)
    case Some(c) => c
    case None => Null
  }

  /** A value every operation on or in fails: there is nothing to address in it. */
  predicate Bare(v: Option<Json>) {
    v == None || v == Some(Null)
  }

  lemma GetUnder(j: Json, k: string, p: Path)
    ensures Get(j, [k] + p) == match Child(j, k) case None => None case Some(c) => Get(c, p)
    ensures Get(j, [k] + p) == Get(ChildOrNull(j, k), p) || (Bare(Get(j, [k] + p)) && Bare(Get(ChildOrNull(j, k), p)))
  {
    assert ([k] + p)[1..] == p;
  }

  lemma LastUnder(k: string, p: Path)
    requires p != []
    ensures Parent([k] + p) == [k] + Parent(p) && LastToken([k] + p) == LastToken(p)
  {
  }

  lemma CollidesUnder(base: Json, theirs: Json, k: string, op: Op)
    requires Child(base, k).Some? && op.path != []
    ensures AddCollides(base, theirs, Lifted(k, op)) <==> AddCollides(Child(base, k).value, ChildOrNull(theirs, k), op)
  {
    LastUnder(k, op.path);
    GetUnder(base, k, Parent(op.path));
    GetUnder(theirs, k, Parent(op.path));
  }

  lemma MovedUnder(base: Json, theirs: Json, k: string, op: Op)
    requires Child(base, k).Some? && op.path != []
    ensures EditsMovedElement(base, theirs, Lifted(k, op))
        <==> ElementMoved(base, theirs, [], k) || EditsMovedElement(Child(base, k).value, ChildOrNull(theirs, k), op)
  {
    var (c, s, up) := (Child(base, k).value, ChildOrNull(theirs, k), Lifted(k, op));
    forall i | 0 <= i < |op.path| - 1
      ensures ElementMoved(base, theirs, up.path[..i + 1], up.path[i + 1])
           == ElementMoved(c, s, op.path[..i], op.path[i])
    {
      assert up.path[..i + 1] == [k] + op.path[..i];
      GetUnder(base, k, op.path[..i]);
      GetUnder(theirs, k, op.path[..i]);
    }
    assert up.path[..0] == [] && up.path[0] == k;
    if EditsMovedElement(base, theirs, up) && !ElementMoved(base, theirs, [], k) {
      var j :| 0 <= j < |up.path| - 1 && ElementMoved(base, theirs, up.path[..j], up.path[j]);
      assert ElementMoved(c, s, op.path[..j - 1], op.path[j - 1]);
    }
    if ElementMoved(base, theirs, [], k) {
      assert ElementMoved(base, theirs, up.path[..0], up.path[0]);
    }
  }

  /** An operation under a key is blocked where it is in the child, or where the child is a moved element. */
  lemma BlocksUnder(base: Json, theirs: Json, k: string, op: Op)
    requires Child(base, k).Some? && op.path != []
    ensures Blocks(base, theirs, Lifted(k, op))
        <==> ElementMoved(base, theirs, [], k) || Blocks(Child(base, k).value, ChildOrNull(theirs, k), op)
  {
    CollidesUnder(base, theirs, k, op);
    MovedUnder(base, theirs, k, op);
  }

  lemma BlockedUnder(base: Json, theirs: Json, k: string, ops: seq<Op>)
    requires Child(base, k).Some? && ops != []
    requires forall op | op in ops :: op.path != []
    ensures Blocked(base, theirs, Under(k, ops))
        <==> ElementMoved(base, theirs, [], k) || Blocked(Child(base, k).value, ChildOrNull(theirs, k), ops)
  {
    var (c, s, moved) := (Child(base, k).value, ChildOrNull(theirs, k), ElementMoved(base, theirs, [], k));
    forall i | 0 <= i < |ops| ensures Blocks(base, theirs, Under(k, ops)[i]) <==> moved || Blocks(c, s, ops[i]) {
      BlocksUnder(base, theirs, k, ops[i]);
    }
    if moved || Blocked(c, s, ops) {
      var i :| 0 <= i < |ops| && (moved || Blocks(c, s, ops[i]));
      assert Under(k, ops)[i] in Under(k, ops);
    }
    if Blocked(base, theirs, Under(k, ops)) {
      var i :| 0 <= i < |Under(k, ops)| && Blocks(base, theirs, Under(k, ops)[i]);
      assert ops[i] in ops;
    }
  }

  /** The pending operations `pending` on `d`, whose conflicts are decided against `theirs`. */
  function LandingOn(base: Json, theirs: Json, d: Json, pending: seq<Op>): Option<Json> {
    if Blocked(base, theirs, pending) then None else ApplyAll(d, Guarded(base, pending))
  }

  lemma LandingConcat(base: Json, theirs: Json, d: Json, p: seq<Op>, q: seq<Op>)
    ensures LandingOn(base, theirs, d, p + q)
         == match LandingOn(base, theirs, d, p) case None => None case Some(next) => LandingOn(base, theirs, next, q)
  {
    GuardedConcat(base, p, q);
    ApplyAllConcat(d, Guarded(base, p), Guarded(base, q));
    assert Blocked(base, theirs, p + q) <==> Blocked(base, theirs, p) || Blocked(base, theirs, q);
  }

  /** One operation lands where nothing blocks it and its guard holds. */
  lemma LandingOne(base: Json, theirs: Json, d: Json, op: Op)
    ensures LandingOn(base, theirs, d, [op])
         == if Blocks(base, theirs, op) || !GuardHolds(base, d, op) then None else Apply(d, op)
  {
    ApplyGuarded(base, d, op);
    assert op in [op] && forall o | o in [op] :: o == op;
  }

  /** Operations under a key land on the child, unless that is a moved element; where the key is missing, none does. */
  lemma LandingUnder(base: Json, theirs: Json, k: string, d: Json, ops: seq<Op>)
    requires Child(base, k).Some? && Child(d, k) == Child(theirs, k)
    requires ops != [] && forall op | op in ops :: op.path != []
    ensures LandingOn(base, theirs, d, Under(k, ops))
         == if ElementMoved(base, theirs, [], k) || Child(theirs, k).None? then None
            else WithChildIf(d, k, Landing(Child(base, k).value, Child(theirs, k).value, ops))
  {
    var c := Child(base, k).value;
    BlockedUnder(base, theirs, k, ops);
    GuardedUnder(base, k, ops);
    GuardedPaths(c, ops);
    if Child(theirs, k).Some? {
      ApplyAllUnder(d, k, Guarded(c, ops));
    } else {
      ApplyAllUnderMissing(d, k, Guarded(c, ops));
    }
  }

  // Operations on the fields of an object, field after field.

  function With(fields: map<string, Json>, k: string, v: Option<Json>): map<string, Json> {
    if v.Some? then fields[k := v.value] else fields - {k}
  }

  /** `ops` make the field `k` merge as `m`, wherever it stands as in theirs. */
  ghost predicate LandsAs(base: Json, theirs: Json, ops: seq<Op>, k: string, m: Merge) {
    forall d: Json | d.Obj? && Child(d, k) == Child(theirs, k) ::
      LandingOn(base, theirs, d, ops) == if m.Clash? then None else Some(Obj(With(d.fields, k, m.value)))
  }

  /** The operations `ops` gives for each key, one key after the other. */
  ghost function Joined(keys: seq<string>, ops: string -> seq<Op>): seq<Op> {
    if keys == [] then [] else ops(keys[0]) + Joined(keys[1..], ops)
  }

  lemma {:induction false} JoinedEmpty(keys: seq<string>, ops: string -> seq<Op>)
    ensures Joined(keys, ops) == [] <==> forall k | k in keys :: ops(k) == []
  {
    if keys != [] {
      JoinedEmpty(keys[1..], ops);
    }
  }

  lemma {:induction false} JoinedConcat(keys: seq<string>, more: seq<string>, ops: string -> seq<Op>)
    ensures Joined(keys + more, ops) == Joined(keys, ops) + Joined(more, ops)
  {
    if keys == [] {
      assert keys + more == more;
    } else {
      assert (keys + more)[1..] == keys[1..] + more;
      JoinedConcat(keys[1..], more, ops);
    }
  }

  /** `fields` with those of `keys` as they merge. */
  function WithAll(fields: map<string, Json>, keys: seq<string>, field: string -> Merge): map<string, Json>
    decreases |keys|
  {
    if keys == [] then fields
    else
      var m := field(keys[0]);
      WithAll(if m.Holds? then With(fields, keys[0], m.value) else fields, keys[1..], field)
  }

  lemma {:induction false} WithAllFields(fields: map<string, Json>, keys: seq<string>, field: string -> Merge,
          k: string)
    requires Distinct(keys) && forall l | l in keys :: field(l).Holds?
    ensures Child(Obj(WithAll(fields, keys, field)), k) == if k in keys then field(k).value else Child(Obj(fields), k)
    decreases |keys|
  {
    if keys != [] {
      WithAllFields(With(fields, keys[0], field(keys[0]).value), keys[1..], field, k);
    }
  }

  ghost predicate AnyClash(keys: seq<string>, field: string -> Merge) {
    exists k :: k in keys && field(k).Clash?
  }

  lemma AnyClashCons(keys: seq<string>, field: string -> Merge)
    requires keys != []
    ensures AnyClash(keys, field) <==> field(keys[0]).Clash? || AnyClash(keys[1..], field)
  {
  }

  lemma {:induction false} FieldsLandOn(x: Json, t: Json, keys: seq<string>, ops: string -> seq<Op>, d: Json,
          field: string -> Merge)
    requires d.Obj? && Distinct(keys)
    requires forall k | k in keys :: LandsAs(x, t, ops(k), k, field(k)) && Child(d, k) == Child(t, k)
    ensures LandingOn(x, t, d, Joined(keys, ops))
         == if AnyClash(keys, field) then None else Some(Obj(WithAll(d.fields, keys, field)))
    decreases |keys|
  {
    if keys != [] {
      var (k, rest) := (keys[0], keys[1..]);
      LandingConcat(x, t, d, ops(k), Joined(rest, ops));
      AnyClashCons(keys, field);
      assert LandsAs(x, t, ops(k), k, field(k));
      if field(k).Holds? {
        FieldsLandOn(x, t, rest, ops, Obj(With(d.fields, k, field(k).value)), field);
      }
    }
  }

  /** Operations that each make one field merge as `field` says make the whole object merge so. */
  lemma FieldsLand(x: Json, t: Json, keys: seq<string>, ops: string -> seq<Op>, field: string -> Merge,
          all: set<string>)
    requires t.Obj? && Distinct(keys) && all == Members(keys) + t.fields.Keys
    requires forall k | k in keys :: LandsAs(x, t, ops(k), k, field(k))
    requires forall k | k !in keys :: field(k) == Holds(Child(t, k))
    ensures AsMerge(LandingOn(x, t, t, Joined(keys, ops))) == Collect(all, field)
  {
    FieldsLandOn(x, t, keys, ops, t, field);
    if forall k | k in keys :: field(k).Holds? {
      var m := Obj(WithAll(t.fields, keys, field));
      forall k ensures field(k) == Holds(Child(m, k)) && (k in m.fields ==> k in all) {
        WithAllFields(t.fields, keys, field, k);
      }
      CollectHolds(all, field, m);
    }
  }
}
