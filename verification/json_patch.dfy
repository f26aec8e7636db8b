/** The JSON Patch operations the merge uses (RFC 6902), and the diff that makes them. */
module JsonPatch {
  import opened Options
  import opened Listings
  import opened Json

  /** `Test` expects `None` where the value to test for was missing, and then never passes. */
  datatype Op =
    | Add(path: Path, value: Json)
    | Remove(path: Path)
    | Replace(path: Path, value: Json)
    | Test(path: Path, expected: Option<Json>)

  /** `op`, made for a child, as an operation on the value that holds the child under `k`. */
  function Lifted(k: string, op: Op): (r: Op)
    ensures r.path == [k] + op.path && Lowered(r) == op
  {
    assert ([k] + op.path)[1..] == op.path;
    op.(path := [k] + op.path)
  }

  /** `op` as an operation on the child its path leads into first. */
  function Lowered(op: Op): Op
    requires op.path != []
  {
    op.(path := op.path[1..])
  }

  /** The index an `add` at token `k` inserts at: `-` names the end. */
  function InsertIndex(items: seq<Json>, k: string): Option<nat> {
    if k == "-" then Some(|items|)
    else match Index(k)
      case Some(i) => if i <= |items| then Some(i) else None
      case None => None
  }

  /** RFC 6902, section 4.1, at the value `k` of `doc`. */
  function AddChild(doc: Json, k: string, v: Json): Option<Json> {
    match doc
    case Obj(fields) => Some(Obj(fields[k := v]))
    case Arr(items) =>
      (match InsertIndex(items, k)
       case Some(i) => Some(Arr(items[..i] + [v] + items[i..]))
       case None => None)
    case _ => None
  }

  /** RFC 6902, section 4.2, at the value `k` of `doc`. */
  function RemoveChild(doc: Json, k: string): Option<Json> {
    if Child(doc, k).None? then None
    else match doc
      case Obj(fields) => Some(Obj(fields - {k}))
      case Arr(items) => var i := Index(k).value; Some(Arr(items[..i] + items[i + 1..]))
  }

  /** One operation on the whole of `doc`. The root cannot be removed. */
  function ApplyHere(doc: Json, op: Op): Option<Json> {
    match op
    case Add(_, v) => Some(v)
    case Replace(_, v) => Some(v)
    case Remove(_) => None
    case Test(_, expected) => if expected == Some(doc) then Some(doc) else None
  }

  /** One operation on `doc`, `None` when it fails. */
  function Apply(doc: Json, op: Op): Option<Json>
    decreases |op.path|
  {
    if op.path == [] then ApplyHere(doc, op)
    else if |op.path| == 1 && op.Add? then AddChild(doc, op.path[0], op.value)
    else if |op.path| == 1 && op.Remove? then RemoveChild(doc, op.path[0])
    else
      match Child(doc, op.path[0])
      case None => None
      case Some(c) => WithChildIf(doc, op.path[0], Apply(c, Lowered(op)))
  }

  function WithChildIf(doc: Json, k: string, c: Option<Json>): Option<Json>
    requires Child(doc, k).Some?
  {
    if c.Some? then Some(WithChild(doc, k, c.value)) else None
  }

  /** A patch, applied operation by operation. The first that fails fails the patch. */
  function ApplyAll(doc: Json, ops: seq<Op>): Option<Json>
    decreases |ops|
  {
    if ops == [] then Some(doc)
    else
      match Apply(doc, ops[0])
      case None => None
      case Some(d) => ApplyAll(d, ops[1..])
  }

  /** `ops` on a child, as operations on the value that holds it under `k`. */
  function Under(k: string, ops: seq<Op>): (r: seq<Op>)
    ensures |r| == |ops|
    ensures forall i | 0 <= i < |ops| :: r[i] == Lifted(k, ops[i])
  {
    if ops == [] then [] else [Lifted(k, ops[0])] + Under(k, ops[1..])
  }

  // The diff. It takes what `x` holds from the end, so an array's elements are addressed by their index in `x`; then it
  // adds what only `y` holds, in order.

  function Diff(ord: KeyOrder, x: Json, y: Json): seq<Op>
    requires SameKind(x, y)
    decreases x, 3
  {
    if x.Obj?
    then FieldOps(ord, x, y, DiffOrder(ord, x, y))
    else ElementOps(ord, x, y, |x.items|) + Appends(|x.items|, y)
  }

  /** The keys of an object, the last one first. */
  function FromEnd(ord: KeyOrder, keys: set<string>): (r: seq<string>)
    ensures Listing(r, keys)
  {
    assert Listing(ord(keys), keys);
    ReversedLists(ord(keys), keys);
    Reversed(ord(keys))
  }

  /** The order a diff of two objects takes their fields in: those of `x` from the end, then those only `y` has. */
  function DiffOrder(ord: KeyOrder, x: Json, y: Json): seq<string>
    requires x.Obj? && y.Obj?
  {
    FromEnd(ord, x.fields.Keys) + ord(y.fields.Keys - x.fields.Keys)
  }

  function FieldOps(ord: KeyOrder, x: Json, y: Json, keys: seq<string>): seq<Op>
    requires x.Obj? && y.Obj?
    decreases x, 2, |keys|
  {
    if keys == [] then [] else FieldDiff(ord, x, y, keys[0]) + FieldOps(ord, x, y, keys[1..])
  }

  function FieldDiff(ord: KeyOrder, x: Json, y: Json, k: string): seq<Op>
    requires x.Obj? && y.Obj?
    decreases x, 1
  {
    if k in x.fields && k in y.fields then ValueDiff(ord, k, x.fields[k], y.fields[k])
    else if k in x.fields then [Remove([k])]
    else if k in y.fields then [Add([k], y.fields[k])]
    else []
  }

  function ValueDiff(ord: KeyOrder, k: string, x: Json, y: Json): seq<Op>
    decreases x, 4
  {
    if SameKind(x, y) then Under(k, Diff(ord, x, y))
    else if x != y then [Replace([k], y)]
    else []
  }

  /** The operations on the elements before `n`, from the end. */
  function ElementOps(ord: KeyOrder, x: Json, y: Json, n: nat): seq<Op>
    requires x.Arr? && y.Arr? && n <= |x.items|
    decreases x, 2, n
  {
    if n == 0 then [] else ElementDiff(ord, x, y, n - 1) + ElementOps(ord, x, y, n - 1)
  }

  function ElementDiff(ord: KeyOrder, x: Json, y: Json, i: nat): seq<Op>
    requires x.Arr? && y.Arr? && i < |x.items|
    decreases x, 1
  {
    if i < |y.items| then ValueDiff(ord, Name(i), x.items[i], y.items[i]) else [Remove([Name(i)])]
  }

  function Appends(n: nat, y: Json): seq<Op>
    requires y.Arr?
    decreases |y.items| - n
  {
    if n >= |y.items| then [] else [Add([Name(n)], y.items[n])] + Appends(n + 1, y)
  }

  // How patches compose.

  lemma {:induction false} ApplyAllConcat(doc: Json, ops: seq<Op>, more: seq<Op>)
    ensures ApplyAll(doc, ops + more) == match ApplyAll(doc, ops) case None => None case Some(d) => ApplyAll(d, more)
    decreases |ops|
  {
    if ops == [] {
      assert ops + more == more;
    } else {
      assert (ops + more)[1..] == ops[1..] + more;
      match Apply(doc, ops[0])
      case None =>
      case Some(d) => ApplyAllConcat(d, ops[1..], more);
    }
  }

  lemma ApplyUnder(doc: Json, k: string, op: Op)
    requires op.path != []
    ensures Apply(doc, Lifted(k, op))
         == match Child(doc, k) case None => None case Some(c) => WithChildIf(doc, k, Apply(c, op))
  {
  }

  lemma ChildOfWithChild(doc: Json, k: string, c: Json, d: Json)
    requires Child(doc, k).Some?
    ensures Child(WithChild(doc, k, c), k) == Some(c)
    ensures WithChild(WithChild(doc, k, c), k, d) == WithChild(doc, k, d)
    ensures WithChild(doc, k, Child(doc, k).value) == doc
  {
  }

  /** Operations under `k` act on the child alone. */
  lemma {:induction false} ApplyAllUnder(doc: Json, k: string, ops: seq<Op>)
    requires forall op | op in ops :: op.path != []
    requires Child(doc, k).Some?
    ensures ApplyAll(doc, Under(k, ops)) == WithChildIf(doc, k, ApplyAll(Child(doc, k).value, ops))
    decreases |ops|
  {
    var c := Child(doc, k).value;
    if ops == [] {
      ChildOfWithChild(doc, k, c, c);
    } else {
      ApplyUnder(doc, k, ops[0]);
      match Apply(c, ops[0])
      case None =>
      case Some(d) =>
        ChildOfWithChild(doc, k, d, d);
        ApplyAllUnder(WithChild(doc, k, d), k, ops[1..]);
        if ApplyAll(d, ops[1..]).Some? {
          ChildOfWithChild(doc, k, d, ApplyAll(d, ops[1..]).value);
        }
    }
  }

  lemma ApplyAllUnderMissing(doc: Json, k: string, ops: seq<Op>)
    requires forall op | op in ops :: op.path != []
    requires Child(doc, k).None? && ops != []
    ensures ApplyAll(doc, Under(k, ops)).None?
  {
    ApplyUnder(doc, k, ops[0]);
  }

  // What the diff's operations say of the values they are made from.

  /**
   * What an operation of `Diff(x, y)` is: an edit of one value of `x`. It runs through values that are of one kind in
   * `x` and `y` and differ there, and gives its target the value it has in `y`.
   */
  ghost predicate Edits(x: Json, y: Json, op: Op)
    decreases |op.path|
  {
    && op.path != []
    && SameKind(x, y) && x != y
    && (if |op.path| == 1 then EditsChild(x, y, op)
        else
          var k := op.path[0];
          && Child(x, k).Some? && Child(y, k).Some?
          && Edits(Child(x, k).value, Child(y, k).value, Lowered(op)))
  }

  ghost predicate EditsChild(x: Json, y: Json, op: Op)
    requires |op.path| == 1
  {
    var k := op.path[0];
    match op
    case Replace(_, v) => Child(x, k).Some? && Child(y, k) == Some(v) && !SameKind(Child(x, k).value, v)
      && Child(x, k).value != v
    case Remove(_) => Child(x, k).Some? && Child(y, k).None?
    case Add(_, v) => Child(x, k).None? && Child(y, k) == Some(v)
    case Test(_, _) => false
  }

  lemma {:induction false} DiffEdits(ord: KeyOrder, x: Json, y: Json)
    requires SameKind(x, y)
    ensures forall op | op in Diff(ord, x, y) :: Edits(x, y, op)
    decreases x, 3
  {
    if x.Obj? {
      FieldOpsEdit(ord, x, y, DiffOrder(ord, x, y));
    } else {
      ElementOpsEdit(ord, x, y, |x.items|);
      AppendsEdit(|x.items|, x, y);
    }
  }

  lemma {:induction false} FieldOpsEdit(ord: KeyOrder, x: Json, y: Json, keys: seq<string>)
    requires x.Obj? && y.Obj?
    ensures forall op | op in FieldOps(ord, x, y, keys) :: Edits(x, y, op) && op.path[0] in keys
    decreases x, 2, |keys|
  {
    if keys != [] {
      var k := keys[0];
      if k in x.fields && k in y.fields {
        ValueDiffEdits(ord, x, y, k);
      }
      FieldOpsEdit(ord, x, y, keys[1..]);
    }
  }

  lemma {:induction false} ValueDiffEdits(ord: KeyOrder, x: Json, y: Json, k: string)
    requires SameKind(x, y)
    requires Child(x, k).Some? && Child(y, k).Some?
    requires Child(x, k).value < x
    ensures forall op | op in ValueDiff(ord, k, Child(x, k).value, Child(y, k).value) ::
            Edits(x, y, op) && op.path[0] == k
    decreases x, 1
  {
    var (c, d) := (Child(x, k).value, Child(y, k).value);
    if SameKind(c, d) {
      DiffEdits(ord, c, d);
      var ops := Diff(ord, c, d);
      forall op | op in Under(k, ops) ensures Edits(x, y, op) && op.path[0] == k {
        var i :| 0 <= i < |ops| && Under(k, ops)[i] == op;
        assert Edits(c, d, ops[i]);
      }
    }
  }

  lemma {:induction false} ElementOpsEdit(ord: KeyOrder, x: Json, y: Json, n: nat)
    requires x.Arr? && y.Arr? && n <= |x.items|
    ensures forall op | op in ElementOps(ord, x, y, n) :: Edits(x, y, op)
    decreases x, 2, n
  {
    if n > 0 {
      IndexOfName(n - 1);
      if n - 1 < |y.items| {
        ValueDiffEdits(ord, x, y, Name(n - 1));
      }
      ElementOpsEdit(ord, x, y, n - 1);
    }
  }

  lemma {:induction false} AppendsEdit(n: nat, x: Json, y: Json)
    requires x.Arr? && y.Arr? && |x.items| <= n
    ensures forall op | op in Appends(n, y) :: Edits(x, y, op)
    decreases |y.items| - n
  {
    if n < |y.items| {
      IndexOfName(n);
      AppendsEdit(n + 1, x, y);
    }
  }
}
