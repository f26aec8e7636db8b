/** The loops of the replay, each with the caches it keeps, and what the move check tells apart. */
module PatchMergeLoops {
  import opened Options
  import opened Listings
  import opened Json
  import opened JsonPatch
  import opened PatchMerge

  method AugmentWithTestOps(base: Json, userPatch: seq<Op>) returns (augmented: seq<Op>)
    ensures augmented == Guarded(base, userPatch)
  {
    augmented := [];
    for i := 0 to |userPatch|
      invariant augmented == Guarded(base, userPatch[..i])
    {
      var op := userPatch[i];
      OneMore(userPatch, i);
      GuardedSnoc(base, userPatch[..i], op);
      if op.Replace? || op.Remove? {
        augmented := augmented + [Test(op.path, Get(base, op.path))];
      }
      augmented := augmented + [op];
    }
    assert userPatch[..|userPatch|] == userPatch;
  }

  lemma GuardedSnoc(base: Json, ops: seq<Op>, op: Op)
    ensures Guarded(base, ops + [op])
         == if op.Replace? || op.Remove? then Guarded(base, ops) + [Test(op.path, Get(base, op.path))] + [op]
           else Guarded(base, ops) + [op]
  {
    GuardedConcat(base, ops, [op]);
    GuardedOne(base, op);
  }

  // Tallies.

  /** `tally` counts the elements of `items` by value. */
  ghost predicate Tallies(tally: map<Json, nat>, items: seq<Json>) {
    && (forall v :: v in tally <==> v in items)
    && forall v | v in tally :: tally[v] == multiset(items)[v]
  }

  method TallyElements(items: seq<Json>) returns (tally: map<Json, nat>)
    ensures Tallies(tally, items)
  {
    tally := map[];
    for i := 0 to |items|
      invariant Tallies(tally, items[..i])
    {
      var v := items[i];
      assert items[..i + 1] == items[..i] + [v];
      tally := tally[v := (if v in tally then tally[v] else 0) + 1];
    }
    assert items[..|items|] == items;
  }

  function Tallied(tally: map<Json, nat>, v: Option<Json>): nat {
    if v.Some? && v.value in tally then tally[v.value] else 0
  }

  lemma TalliedIsCopies(tally: map<Json, nat>, items: seq<Json>, v: Option<Json>)
    requires Tallies(tally, items)
    ensures Tallied(tally, v) == Copies(items, v)
  {
  }

  datatype ArrayTally = ArrayTally(before: map<Json, nat>, now: map<Json, nat>)

  type ArrayTallies = map<Path, ArrayTally>

  /** Every tally kept is of the arrays at its pointer. */
  ghost predicate TalliesOf(tallies: ArrayTallies, base: Json, theirs: Json) {
    forall p | p in tallies ::
      && IsArray(Get(base, p)) && Tallies(tallies[p].before, Get(base, p).value.items)
      && IsArray(Get(theirs, p)) && Tallies(tallies[p].now, Get(theirs, p).value.items)
  }

  /** The tally at `pointer`, counted on first use. */
  method TallyAt(base: Json, theirs: Json, pointer: Path, tallies: ArrayTallies)
        returns (tally: ArrayTally, kept: ArrayTallies)
    requires TalliesOf(tallies, base, theirs)
    requires IsArray(Get(base, pointer)) && IsArray(Get(theirs, pointer))
    ensures TalliesOf(kept, base, theirs) && pointer in kept && kept[pointer] == tally
  {
    kept := tallies;
    if pointer !in kept {
      var before := TallyElements(Get(base, pointer).value.items);
      var now := TallyElements(Get(theirs, pointer).value.items);
      kept := kept[pointer := ArrayTally(before, now)];
    }
    tally := kept[pointer];
  }

  // The replay's checks.

  method DropAgreed(base: Json, ours: Json, theirs: Json, userPatch: seq<Op>) returns (pending: seq<Op>)
    ensures pending == WithoutAgreed(base, ours, theirs, userPatch)
  {
    var insertedArrays := InsertedArrays(base, ours, userPatch);
    var arrayAgrees: map<Path, bool> := map[];
    pending := [];
    for i := 0 to |userPatch|
      invariant pending == Pending(ours, theirs, insertedArrays, userPatch[..i])
      invariant AgreementOf(arrayAgrees, ours, theirs, insertedArrays)
    {
      var op := userPatch[i];
      var agrees;
      var outer := OutermostArray(ours, op.path);
      if outer.Some? {
        agrees, arrayAgrees := ArrayAgrees(ours, theirs, insertedArrays, outer.value, arrayAgrees);
      } else {
        agrees := Agreed(ours, theirs, insertedArrays, op);
      }
      PendingSnoc(ours, theirs, insertedArrays, userPatch[..i], op);
      assert userPatch[..i + 1] == userPatch[..i] + [op];
      if !agrees {
        pending := pending + [op];
      }
    }
    assert userPatch[..|userPatch|] == userPatch;
  }

  ghost predicate AgreementOf(arrayAgrees: map<Path, bool>, ours: Json, theirs: Json, inserted: set<Path>) {
    forall p | p in arrayAgrees :: arrayAgrees[p] == (p !in inserted && Get(theirs, p) == Get(ours, p))
  }

  /** Whether the outermost array at `outer` agrees, compared on first use. */
  method ArrayAgrees(ours: Json, theirs: Json, inserted: set<Path>, outer: Path, arrayAgrees: map<Path, bool>)
    returns (agrees: bool, kept: map<Path, bool>)
    requires AgreementOf(arrayAgrees, ours, theirs, inserted)
    ensures agrees == (outer !in inserted && Get(theirs, outer) == Get(ours, outer))
    ensures AgreementOf(kept, ours, theirs, inserted)
  {
    kept := arrayAgrees;
    if outer !in kept {
      kept := kept[outer := outer !in inserted && Get(theirs, outer) == Get(ours, outer)];
    }
    agrees := kept[outer];
  }

  lemma PendingSnoc(ours: Json, theirs: Json, inserted: set<Path>, ops: seq<Op>, op: Op)
    ensures Pending(ours, theirs, inserted, ops + [op])
         == Pending(ours, theirs, inserted, ops) + (if Agreed(ours, theirs, inserted, op) then [] else [op])
  {
    PendingConcat(ours, theirs, inserted, ops, [op]);
    assert [op][1..] == [] && Pending(ours, theirs, inserted, []) == [];
  }

  predicate AnyCollides(base: Json, theirs: Json, ops: seq<Op>) {
    exists op | op in ops :: AddCollides(base, theirs, op)
  }

  predicate AnyEditsMoved(base: Json, theirs: Json, ops: seq<Op>) {
    exists op | op in ops :: EditsMovedElement(base, theirs, op)
  }

  lemma BlockedEitherWay(base: Json, theirs: Json, ops: seq<Op>)
    ensures Blocked(base, theirs, ops) <==> AnyCollides(base, theirs, ops) || AnyEditsMoved(base, theirs, ops)
  {
    forall op | op in ops
      ensures Blocks(base, theirs, op) <==> AddCollides(base, theirs, op) || EditsMovedElement(base, theirs, op)
    {
    }
  }

  method AddsCollide(base: Json, theirs: Json, userPatch: seq<Op>) returns (collide: bool)
    ensures collide == AnyCollides(base, theirs, userPatch)
  {
    var tallies: ArrayTallies := map[];
    for i := 0 to |userPatch|
      invariant TalliesOf(tallies, base, theirs)
      invariant forall j | 0 <= j < i :: !AddCollides(base, theirs, userPatch[j])
    {
      var collides;
      collides, tallies := OpCollides(base, theirs, userPatch[i], tallies);
      if collides {
        assert userPatch[i] in userPatch;
        return true;
      }
    }
    return false;
  }

  method OpCollides(base: Json, theirs: Json, op: Op, tallies: ArrayTallies)
        returns (collides: bool, kept: ArrayTallies)
    requires TalliesOf(tallies, base, theirs)
    ensures collides == AddCollides(base, theirs, op) && TalliesOf(kept, base, theirs)
  {
    kept := tallies;
    if !op.Add? {
      return false, kept;
    }
    var before, now := Get(base, Parent(op.path)), Get(theirs, Parent(op.path));
    if !IsArray(before) {
      return now.Some? && HasOwn(now.value, LastToken(op.path)), kept;
    }
    if !IsArray(now) {
      return false, kept;
    }
    var tally;
    tally, kept := TallyAt(base, theirs, Parent(op.path), kept);
    TalliedIsCopies(tally.before, before.value.items, Some(op.value));
    TalliedIsCopies(tally.now, now.value.items, Some(op.value));
    collides := Tallied(tally.now, Some(op.value)) > Tallied(tally.before, Some(op.value));
  }

  method IsElementMoved(base: Json, theirs: Json, pointer: Path, token: string, tallies: ArrayTallies)
    returns (moved: bool, kept: ArrayTallies)
    requires TalliesOf(tallies, base, theirs)
    ensures moved == ElementMoved(base, theirs, pointer, token) && TalliesOf(kept, base, theirs)
  {
    kept := tallies;
    var before, now := Get(base, pointer), Get(theirs, pointer);
    if !IsArray(before) {
      return false, kept;
    }
    if !IsArray(now) {
      return true, kept;
    }
    var was, stands := Child(before.value, token), Child(now.value, token);
    if was == stands {
      return false, kept;
    }
    var tally;
    tally, kept := TallyAt(base, theirs, pointer, kept);
    TalliedIsCopies(tally.before, before.value.items, stands);
    TalliedIsCopies(tally.now, now.value.items, stands);
    TalliedIsCopies(tally.before, before.value.items, was);
    TalliedIsCopies(tally.now, now.value.items, was);
    var least := if Tallied(tally.now, stands) >= 1 then Tallied(tally.now, stands) else 1;
    var movedIn := Tallied(tally.before, stands) >= least;
    var movedOut := Tallied(tally.now, was) >= Tallied(tally.before, was);
    moved := movedIn || movedOut;
  }

  /** What the move check keeps: the tallies, and each element found moved or not, by its pointer. */
  datatype Moves = Moves(tallies: ArrayTallies, found: map<Path, bool>)

  ghost predicate MovesOf(moves: Moves, base: Json, theirs: Json) {
    && TalliesOf(moves.tallies, base, theirs)
    && forall p | p in moves.found :: p != [] && moves.found[p] == ElementMoved(base, theirs, Parent(p), LastToken(p))
  }

  method EditsMoved(base: Json, theirs: Json, userPatch: seq<Op>) returns (edits: bool)
    ensures edits == AnyEditsMoved(base, theirs, userPatch)
  {
    var moves := Moves(map[], map[]);
    for n := 0 to |userPatch|
      invariant MovesOf(moves, base, theirs)
      invariant forall j | 0 <= j < n :: !EditsMovedElement(base, theirs, userPatch[j])
    {
      edits, moves := PathMoved(base, theirs, userPatch[n], moves);
      if edits {
        assert userPatch[n] in userPatch;
        return;
      }
    }
    edits := false;
  }

  /** Whether an element that `op` edits inside moved, each element decided once. */
  method PathMoved(base: Json, theirs: Json, op: Op, moves: Moves) returns (moved: bool, kept: Moves)
    requires MovesOf(moves, base, theirs)
    ensures moved == EditsMovedElement(base, theirs, op) && MovesOf(kept, base, theirs)
  {
    moved, kept := false, moves;
    var i := 0;
    while i < |op.path| - 1 && !moved
      invariant 0 <= i && MovesOf(kept, base, theirs)
      invariant !moved ==> forall j | 0 <= j < i && j < |op.path| - 1 ::
                !ElementMoved(base, theirs, op.path[..j], op.path[j])
      invariant moved ==> EditsMovedElement(base, theirs, op)
      decreases |op.path| - i
    {
      moved, kept := StepMoved(base, theirs, op.path, i, kept);
      i := i + 1;
    }
  }

  /** Whether the element that step `i` of `path` leads to moved. */
  method StepMoved(base: Json, theirs: Json, path: Path, i: nat, moves: Moves) returns (moved: bool, kept: Moves)
    requires MovesOf(moves, base, theirs) && i < |path|
    ensures moved == ElementMoved(base, theirs, path[..i], path[i]) && MovesOf(kept, base, theirs)
  {
    var element := path[..i + 1];
    assert Parent(element) == path[..i] && LastToken(element) == path[i];
    if element in moves.found {
      return moves.found[element], moves;
    }
    var tallies;
    moved, tallies := IsElementMoved(base, theirs, path[..i], path[i], moves.tallies);
    kept := Moves(tallies, moves.found[element := moved]);
  }

  method ReplayPatch(base: Json, ours: Json, theirs: Json, userPatch: seq<Op>) returns (outcome: Outcome)
    ensures outcome == Replay(base, ours, theirs, userPatch)
  {
    var pending := DropAgreed(base, ours, theirs, userPatch);
    if pending == [] {
      return AlreadyApplied(theirs);
    }
    var landed := Land(base, theirs, pending);
    outcome := Landed(theirs, landed);
  }

  method Land(base: Json, theirs: Json, pending: seq<Op>) returns (landed: Option<Json>)
    ensures landed == Landing(base, theirs, pending)
  {
    BlockedEitherWay(base, theirs, pending);
    var blocked := AddsCollide(base, theirs, pending);
    if !blocked {
      blocked := EditsMoved(base, theirs, pending);
    }
    if blocked {
      return None;
    }
    var augmented := AugmentWithTestOps(base, pending);
    landed := ApplyAll(theirs, augmented);
  }

  // What the move check tells apart.

  /**
   * Where theirs holds the base's elements in another order, an edit inside an element that no longer stands at its
   * index conflicts: it is never replayed on the element that slid in.
   */
  lemma EditOfMovedElementConflicts(base: Json, ours: Json, theirs: Json, patch: seq<Op>, op: Op, i: nat)
    requires op in WithoutAgreed(base, ours, theirs, patch) && i < |op.path| - 1
    requires var (before, now) := (Get(base, op.path[..i]), Get(theirs, op.path[..i]));
             && IsArray(before) && IsArray(now) && multiset(now.value.items) == multiset(before.value.items)
             && Child(now.value, op.path[i]) != Child(before.value, op.path[i])
    ensures Replay(base, ours, theirs, patch) == Conflict(theirs)
  {
    var (before, now) := (Get(base, op.path[..i]).value, Get(theirs, op.path[..i]).value);
    assert |now.items| == |multiset(now.items)| == |before.items|;
    var stands := Child(now, op.path[i]);
    assert stands.Some? ==> stands.value in multiset(now.items);
    assert ElementMoved(base, theirs, op.path[..i], op.path[i]);
    assert Blocks(base, theirs, op);
  }

  /** An element another client changed to a fresh value in its place is not taken for a move, nor is any other. */
  lemma FreshValueIsNoMove(base: Json, theirs: Json, pointer: Path, token: string, at: nat, v: Json)
    requires IsArray(Get(base, pointer)) && IsArray(Get(theirs, pointer))
    requires var before := Get(base, pointer).value.items;
             at < |before| && v !in before && Get(theirs, pointer).value.items == before[at := v]
    ensures !ElementMoved(base, theirs, pointer, token)
  {
    var (before, now) := (Get(base, pointer).value.items, Get(theirs, pointer).value.items);
    assert Get(base, pointer).value == Arr(before) && Get(theirs, pointer).value == Arr(now);
    if Index(token) == Some(at) {
      UpdatedCopies(before, at, v);
    }
  }

  lemma UpdatedCopies(before: seq<Json>, at: nat, v: Json)
    requires at < |before| && v !in before
    ensures multiset(before)[v] == 0 && multiset(before[at := v])[before[at]] == multiset(before)[before[at]] - 1
  {
    assert before == before[..at] + [before[at]] + before[at + 1..];
    assert before[at := v] == before[..at] + [v] + before[at + 1..];
  }
}
