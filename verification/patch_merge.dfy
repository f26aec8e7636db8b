/** The replay of a user's edit on a root another client changed, with every array matched by index. */
module PatchMerge {
  import opened Options
  import opened Json
  import opened JsonPatch

  datatype Outcome =
    | Merged(merged: Json)
    | NoOp
    | AlreadyApplied(theirs: Json)
    | Conflict(theirs: Json)
    | Unavailable

  function Parent(p: Path): Path {
    if p == [] then [] else p[..|p| - 1]
  }

  function LastToken(p: Path): string {
    if p == [] then "" else p[|p| - 1]
  }

  predicate IsArray(v: Option<Json>) {
    v.Some? && v.value.Arr?
  }

  // Guards.

  function Guard(base: Json, op: Op): seq<Op> {
    if op.Replace? || op.Remove? then [Test(op.path, Get(base, op.path)), op] else [op]
  }

  /** `ops` with a test of the base value before each replacement and removal. */
  function Guarded(base: Json, ops: seq<Op>): seq<Op> {
    if ops == [] then [] else Guard(base, ops[0]) + Guarded(base, ops[1..])
  }

  // Agreement.

  /** The outermost array a step of `p` before its last runs through. */
  function OutermostArray(doc: Json, p: Path): Option<Path>
    decreases |p|
  {
    if p == [] then None
    else if doc.Arr? then Some([])
    else match Child(doc, p[0])
      case None => None
      case Some(c) => OnChild(p[0], OutermostArray(c, p[1..]))
  }

  function OnChild(k: string, p: Option<Path>): Option<Path> {
    if p.Some? then Some([k] + p.value) else None
  }

  predicate Inserts(base: Json, op: Op) {
    op.Add? && IsArray(Get(base, Parent(op.path)))
  }

  /** The outermost arrays of the user's root that the patch inserts somewhere inside. */
  function InsertedArrays(base: Json, ours: Json, patch: seq<Op>): set<Path> {
    set op | op in patch && Inserts(base, op) && OutermostArray(ours, op.path).Some? ::
      OutermostArray(ours, op.path).value
  }

  /** Whether `theirs` already holds what `op` writes. */
  predicate Agreed(ours: Json, theirs: Json, inserted: set<Path>, op: Op) {
    match OutermostArray(ours, op.path)
    case Some(outer) => outer !in inserted && Get(theirs, outer) == Get(ours, outer)
    case None =>
      var parent := Get(theirs, Parent(op.path));
      var key := LastToken(op.path);
      && parent.Some? && parent.value.Obj?
      && match op
         case Remove(_) => key !in parent.value.fields
         case Replace(_, v) => key in parent.value.fields && parent.value.fields[key] == v
         case Add(_, v) => key in parent.value.fields && parent.value.fields[key] == v
         case Test(_, _) => false
  }

  function Pending(ours: Json, theirs: Json, inserted: set<Path>, ops: seq<Op>): seq<Op> {
    if ops == [] then []
    else Unless(Agreed(ours, theirs, inserted, ops[0]), ops[0]) + Pending(ours, theirs, inserted, ops[1..])
  }

  function Unless(agreed: bool, op: Op): seq<Op> {
    if agreed then [] else [op]
  }

  function WithoutAgreed(base: Json, ours: Json, theirs: Json, patch: seq<Op>): seq<Op> {
    Pending(ours, theirs, InsertedArrays(base, ours, patch), patch)
  }

  // Collisions and moves. A value's canonical text stands for the value, so elements are counted by value.

  function Copies(items: seq<Json>, v: Option<Json>): nat {
    if v.Some? then multiset(items)[v.value] else 0
  }

  predicate AddCollides(base: Json, theirs: Json, op: Op) {
    && op.Add?
    && var (before, now) := (Get(base, Parent(op.path)), Get(theirs, Parent(op.path)));
       if IsArray(before)
       then IsArray(now) && Copies(now.value.items, Some(op.value)) > Copies(before.value.items, Some(op.value))
       else now.Some? && HasOwn(now.value, LastToken(op.path))
  }

  predicate ElementMoved(base: Json, theirs: Json, pointer: Path, token: string) {
    var (before, now) := (Get(base, pointer), Get(theirs, pointer));
    && IsArray(before)
    && (IsArray(now) ==>
          var (was, stands) := (Child(before.value, token), Child(now.value, token));
          && was != stands
          && (MovedIn(before.value.items, now.value.items, stands)
            || MovedOut(before.value.items, now.value.items, was)))
  }

  /** The element now at the index stood elsewhere, and there are no more copies of it than there were. */
  predicate MovedIn(before: seq<Json>, now: seq<Json>, stands: Option<Json>) {
    Copies(before, stands) >= Copies(now, stands) && Copies(before, stands) >= 1
  }

  /** Every copy of the edited element is still there. */
  predicate MovedOut(before: seq<Json>, now: seq<Json>, was: Option<Json>) {
    Copies(now, was) >= Copies(before, was)
  }

  predicate EditsMovedElement(base: Json, theirs: Json, op: Op) {
    exists i | 0 <= i < |op.path| - 1 :: ElementMoved(base, theirs, op.path[..i], op.path[i])
  }

  predicate Blocks(base: Json, theirs: Json, op: Op) {
    AddCollides(base, theirs, op) || EditsMovedElement(base, theirs, op)
  }

  predicate Blocked(base: Json, theirs: Json, ops: seq<Op>) {
    exists op | op in ops :: Blocks(base, theirs, op)
  }

  // The replay.

  /** The pending operations' effect on `theirs`, `None` for a conflict. */
  function Landing(base: Json, theirs: Json, pending: seq<Op>): Option<Json> {
    if Blocked(base, theirs, pending) then None else ApplyAll(theirs, Guarded(base, pending))
  }

  function Replay(base: Json, ours: Json, theirs: Json, patch: seq<Op>): Outcome {
    var pending := WithoutAgreed(base, ours, theirs, patch);
    if pending == [] then AlreadyApplied(theirs)
    else Landed(theirs, Landing(base, theirs, pending))
  }

  function Landed(theirs: Json, landed: Option<Json>): Outcome {
    if landed.Some? then Merged(landed.value) else Conflict(theirs)
  }

  lemma {:induction false} GuardedConcat(base: Json, ops: seq<Op>, more: seq<Op>)
    ensures Guarded(base, ops + more) == Guarded(base, ops) + Guarded(base, more)
  {
    if ops == [] {
      assert ops + more == more;
    } else {
      assert (ops + more)[1..] == ops[1..] + more;
      GuardedConcat(base, ops[1..], more);
    }
  }

  lemma {:induction false} PendingConcat(ours: Json, theirs: Json, inserted: set<Path>, ops: seq<Op>, more: seq<Op>)
    ensures Pending(ours, theirs, inserted, ops + more)
         == Pending(ours, theirs, inserted, ops) + Pending(ours, theirs, inserted, more)
  {
    if ops == [] {
      assert ops + more == more;
    } else {
      var head := Unless(Agreed(ours, theirs, inserted, ops[0]), ops[0]);
      assert (ops + more)[0] == ops[0] && (ops + more)[1..] == ops[1..] + more;
      PendingConcat(ours, theirs, inserted, ops[1..], more);
      assert Pending(ours, theirs, inserted, ops + more) == head + Pending(ours, theirs, inserted, ops[1..] + more);
    }
  }

  lemma {:induction false} PendingMembers(ours: Json, theirs: Json, inserted: set<Path>, ops: seq<Op>)
    ensures forall op ::
              op in Pending(ours, theirs, inserted, ops) <==> op in ops && !Agreed(ours, theirs, inserted, op)
  {
    if ops != [] {
      PendingMembers(ours, theirs, inserted, ops[1..]);
    }
  }

  /** Guards of operations under a key are the guards of the operations on the child. */
  lemma {:induction false} GuardedUnder(base: Json, k: string, ops: seq<Op>)
    requires Child(base, k).Some?
    ensures Guarded(base, Under(k, ops)) == Under(k, Guarded(Child(base, k).value, ops))
  {
    if ops != [] {
      var (c, op) := (Child(base, k).value, ops[0]);
      assert ([k] + op.path)[1..] == op.path;
      assert Guard(base, Lifted(k, op)) == Under(k, Guard(c, op));
      GuardedUnder(base, k, ops[1..]);
      UnderConcat(k, Guard(c, op), Guarded(c, ops[1..]));
    }
  }

  lemma {:induction false} UnderConcat(k: string, ops: seq<Op>, more: seq<Op>)
    ensures Under(k, ops + more) == Under(k, ops) + Under(k, more)
  {
    if ops == [] {
      assert ops + more == more;
    } else {
      assert (ops + more)[1..] == ops[1..] + more;
      UnderConcat(k, ops[1..], more);
    }
  }

  lemma {:induction false} GuardedPaths(base: Json, ops: seq<Op>)
    requires forall op | op in ops :: op.path != []
    ensures forall op | op in Guarded(base, ops) :: op.path != []
  {
    if ops != [] {
      GuardedPaths(base, ops[1..]);
    }
  }

  lemma {:induction false} ApplyTest(doc: Json, path: Path, expected: Option<Json>)
    ensures Apply(doc, Test(path, expected)) == if expected.Some? && Get(doc, path) == expected then Some(doc) else None
    decreases |path|
  {
    if path != [] {
      match Child(doc, path[0])
      case None =>
      case Some(c) =>
        ApplyTest(c, path[1..], expected);
        ChildOfWithChild(doc, path[0], c, c);
    }
  }

  predicate GuardHolds(base: Json, doc: Json, op: Op) {
    op.Replace? || op.Remove? ==> Get(base, op.path).Some? && Get(doc, op.path) == Get(base, op.path)
  }

  lemma GuardedOne(base: Json, op: Op)
    ensures Guarded(base, [op]) == Guard(base, op)
  {
    assert [op][1..] == [] && Guarded(base, []) == [];
  }

  lemma ApplyOne(doc: Json, op: Op)
    ensures ApplyAll(doc, [op]) == Apply(doc, op)
  {
    assert [op][1..] == [];
  }

  /** One guarded operation: it applies where its guard holds. */
  lemma ApplyGuarded(base: Json, doc: Json, op: Op)
    ensures ApplyAll(doc, Guarded(base, [op])) == if GuardHolds(base, doc, op) then Apply(doc, op) else None
  {
    var guarded := Guarded(base, [op]);
    GuardedOne(base, op);
    if op.Replace? || op.Remove? {
      ApplyTest(doc, op.path, Get(base, op.path));
      assert guarded[1..] == [op];
    }
    ApplyOne(doc, op);
  }
}
