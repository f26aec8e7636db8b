/** The loops over arrays matched by key, against what they compute. */
module KeyedArrayLoops {
  import opened Options
  import opened Listings
  import opened Json
  import opened KeyOrders
  import opened KeyedArrays

  lemma {:induction false} UnkeyedPrefix(items: seq<Json>, itemKey: ItemKey, n: nat)
    requires n <= |items| && ItemsByKey(items[..n], itemKey).None?
    ensures ItemsByKey(items, itemKey).None?
  {
    if n < |items| {
      assert items[..|items| - 1][..n] == items[..n];
      UnkeyedPrefix(items[..|items| - 1], itemKey, n);
    } else {
      assert items[..n] == items;
    }
  }

  method KeyItems(items: seq<Json>, itemKey: ItemKey) returns (r: Option<KeyedItems>)
    ensures r == ItemsByKey(items, itemKey)
  {
    var keyed := KeyedItems([], map[]);
    for i := 0 to |items|
      invariant ItemsByKey(items[..i], itemKey) == Some(keyed)
    {
      OneMore(items, i);
      SnocByKey(items[..i], items[i], itemKey);
      var key := itemKey(items[i]);
      if key.None? || Prefixed(key.value) in keyed.items {
        UnkeyedPrefix(items, itemKey, i + 1);
        return None;
      }
      keyed := KeyedItems(keyed.keys + [Prefixed(key.value)], keyed.items[Prefixed(key.value) := items[i]]);
    }
    assert items[..|items|] == items;
    r := Some(keyed);
  }

  // The arrangement.

  type FollowingMap = map<Option<string>, seq<string>>

  function Got(following: FollowingMap, of: Option<string>): seq<string> {
    if of in following then following[of] else []
  }

  /** `following` holds what follows each kept key in the lists seen, and before them in `before`. */
  ghost predicate Follows(following: FollowingMap, before: FollowingMap, list: seq<string>, kept: set<string>) {
    forall of :: Got(following, of) == Got(before, of) + Followers(list, kept, None, of)
  }

  method CollectFollowing(before: FollowingMap, list: seq<string>, kept: set<string>) returns (following: FollowingMap)
    ensures Follows(following, before, list, kept)
  {
    following := before;
    var anchor: Option<string> := None;
    var i := 0;
    while i < |list|
      invariant 0 <= i <= |list|
      invariant forall of ::
                Got(following, of) + Followers(list[i..], kept, anchor, of)
                  == Got(before, of) + Followers(list, kept, None, of)
    {
      assert list[i..][0] == list[i] && list[i..][1..] == list[i + 1..];
      ghost var was := following;
      if list[i] in kept {
        anchor := Some(list[i]);
      } else {
        following := following[anchor := Got(following, anchor) + [list[i]]];
        forall of
          ensures Got(following, of) + Followers(list[i + 1..], kept, anchor, of)
               == Got(was, of) + Followers(list[i..], kept, anchor, of)
        {
        }
      }
      i := i + 1;
    }
    forall of ensures Got(following, of) == Got(before, of) + Followers(list, kept, None, of) {
      assert Got(following, of) + [] == Got(following, of);
    }
  }

  /** Adds `list` to an insertion-ordered set, `order` of what came before. */
  method AddAll(order: seq<string>, list: seq<string>, ghost before: seq<string>) returns (more: seq<string>)
    requires order == Unique(before)
    ensures more == Unique(before + list)
  {
    more := order;
    assert before + list[..0] == before;
    for i := 0 to |list|
      invariant more == Unique(before + list[..i])
    {
      UniqueSnoc(before + list[..i], list[i]);
      assert before + list[..i + 1] == before + list[..i] + [list[i]];
      if list[i] !in more {
        more := more + [list[i]];
      }
    }
    assert list[..|list|] == list;
  }

  lemma {:induction false} WovenSnoc(kept: seq<string>, after: Option<string> -> seq<string>, n: nat)
    requires n < |kept|
    ensures Woven(kept[..n + 1], after) == Woven(kept[..n], after) + ([kept[n]] + after(Some(kept[n])))
    decreases n
  {
    if n == 0 {
      assert kept[..1] == [kept[0]] + [] && kept[..0] == [];
      WovenCons(kept[0], [], after);
      assert after(Some(kept[0])) + [] == after(Some(kept[0]));
    } else {
      assert kept[..n + 1] == [kept[0]] + kept[1..][..n] && kept[..n] == [kept[0]] + kept[1..][..n - 1];
      WovenSnoc(kept[1..], after, n - 1);
      WovenCons(kept[0], kept[1..][..n], after);
      WovenCons(kept[0], kept[1..][..n - 1], after);
    }
  }

  method CollectBoth(lists: KeyLists, inKept: set<string>) returns (following: FollowingMap)
    requires |lists| == 3
    ensures forall of :: Got(following, of) == Following(lists, inKept, of)
  {
    var ofOurs := CollectFollowing(map[], ListOr(lists[1]), inKept);
    following := CollectFollowing(ofOurs, ListOr(lists[2]), inKept);
    forall of ensures Got(following, of) == Following(lists, inKept, of) {
      assert [] + Followers(ListOr(lists[1]), inKept, None, of) == Followers(ListOr(lists[1]), inKept, None, of);
    }
  }

  lemma WovenStep(kept: seq<string>, after: Option<string> -> seq<string>, n: nat)
    requires n < |kept|
    ensures after(None) + Woven(kept[..n + 1], after)
         == (after(None) + Woven(kept[..n], after)) + ([kept[n]] + after(Some(kept[n])))
  {
    WovenSnoc(kept, after, n);
    assert after(None) + (Woven(kept[..n], after) + ([kept[n]] + after(Some(kept[n]))))
        == (after(None) + Woven(kept[..n], after)) + ([kept[n]] + after(Some(kept[n])));
  }

  method OrderKeys(lists: KeyLists, kept: seq<string>) returns (order: seq<string>)
    requires |lists| == 3
    ensures order == FullOrder(lists, kept)
  {
    var inKept := Members(kept);
    var following := CollectBoth(lists, inKept);
    ghost var after := of => Following(lists, inKept, of);
    order := AddAll([], Got(following, None), []);
    assert [] + after(None) == after(None) && after(None) + Woven([], after) == after(None) && kept[..0] == [];
    for i := 0 to |kept|
      invariant order == Unique(after(None) + Woven(kept[..i], after))
    {
      WovenStep(kept, after, i);
      order := AddAll(order, [kept[i]] + Got(following, Some(kept[i])), after(None) + Woven(kept[..i], after));
    }
    assert kept[..|kept|] == kept;
  }

  method Arrange(entries: map<string, Json>, keyed: KeyedArray) returns (items: seq<Json>)
    requires |keyed.lists| == 3
    ensures items == Arranged(entries, keyed)
  {
    var order := OrderKeys(keyed.lists, keyed.kept);
    OnlyMembers(order, entries.Keys);
    ghost var listed := [];
    items := [];
    assert order[..0] == [];
    for i := 0 to |order|
      invariant listed == Only(order[..i], entries.Keys) && |items| == |listed|
      invariant forall j | 0 <= j < |listed| :: listed[j] in entries && items[j] == entries[listed[j]]
    {
      OneMore(order, i);
      OnlySnoc(order[..i], order[i], entries.Keys);
      if order[i] in entries {
        items, listed := items + [entries[order[i]]], listed + [order[i]];
      }
    }
    assert order[..|order|] == order;
  }

  // The walk.

  /** What a walk found, by pointer. */
  class KeyedMap {
    var lists: map<Path, KeyLists>

    constructor ()
      ensures lists == map[]
    {
      lists := map[];
    }
  }

  /** Whether `q` is `at` or below one of the names `done` there. */
  predicate Seen(q: Path, at: Path, done: set<string>) {
    q == at || (|q| > |at| && q[|at|] in done)
  }

  /** `lists` is `was` with what `all` has of the paths seen. */
  ghost predicate Gathered(lists: map<Path, KeyLists>, was: map<Path, KeyLists>, all: map<Path, KeyLists>, at: Path,
          done: set<string>)
  {
    && (forall q :: q in lists <==> q in was || (q in all && Seen(q, at, done)))
    && forall q | q in lists :: lists[q] == if q in all && Seen(q, at, done) then all[q] else was[q]
  }

  /** `below` is the part of `all` below `name`. */
  ghost predicate IsPart(below: map<Path, KeyLists>, all: map<Path, KeyLists>, at: Path, name: string) {
    && (forall q :: q in below <==> q in all && |q| > |at| && q[|at|] == name)
    && forall q | q in below :: below[q] == all[q]
  }

  lemma GatherMore(lists: map<Path, KeyLists>, was: map<Path, KeyLists>, all: map<Path, KeyLists>,
          below: map<Path, KeyLists>,
                   at: Path, done: set<string>, name: string)
    requires Gathered(lists, was, all, at, done) && IsPart(below, all, at, name)
    ensures Gathered(lists + below, was, all, at, done + {name})
  {
  }

  lemma BelowIsPart(roots: Roots, at: Path, itemKey: ItemKey, name: string)
    requires !LevelOf(roots, itemKey).Whole? && name in NameSet(LevelOf(roots, itemKey).children)
    ensures IsPart(WalkBelow(roots, at, itemKey, name), KeyedArraysOf(roots, at, itemKey), at, name)
  {
    var (below, all) := (WalkBelow(roots, at, itemKey, name), KeyedArraysOf(roots, at, itemKey));
    forall q: Path
      ensures q in below <==> q in all && |q| > |at| && q[|at|] == name
      ensures q in below ==> below[q] == all[q]
    {
      PartAt(roots, at, itemKey, name, q);
    }
  }

  lemma PartAt(roots: Roots, at: Path, itemKey: ItemKey, name: string, q: Path)
    requires !LevelOf(roots, itemKey).Whole? && name in NameSet(LevelOf(roots, itemKey).children)
    ensures var (below, all) := (WalkBelow(roots, at, itemKey, name), KeyedArraysOf(roots, at, itemKey));
            && (q in below <==> q in all && |q| > |at| && q[|at|] == name)
            && (q in below ==> below[q] == all[q])
  {
    if q in WalkBelow(roots, at, itemKey, name) {
      assert at + [name] <= q;
      assert q[|at|] == (at + [name])[|at|] == name;
    }
    if q != at {
      FoundAt(roots, at, itemKey, q);
    }
  }

  lemma SameBelow(at: Path, k: string, keyed: map<Path, KeyLists>, found: map<Path, KeyLists>)
    requires SameFrom(at, keyed, found)
    ensures SameFrom(at + [k], keyed, found)
  {
    forall q | at + [k] <= q ensures (q in keyed <==> q in found) && (q in keyed ==> keyed[q] == found[q]) {
      assert at <= q;
    }
  }

  lemma {:induction false} FormSame(root: Json, at: Path, keyed: map<Path, KeyLists>, found: map<Path, KeyLists>,
          itemKey: ItemKey)
    requires SameFrom(at, keyed, found)
    ensures Form(root, at, keyed, itemKey) == Form(root, at, found, itemKey)
    decreases Height(root), 1
  {
    assert at <= at;
    if root.Obj? {
      forall k | k in root.fields
        ensures Form(root.fields[k], at + [k], keyed, itemKey) == Form(root.fields[k], at + [k], found, itemKey)
      {
        ChildIsLower(root, itemKey, k);
        SameBelow(at, k, keyed, found);
        FormSame(root.fields[k], at + [k], keyed, found, itemKey);
      }
    } else if root.Arr? && ItemsByKey(root.items, itemKey).Some? {
      ItemsFormSame(root, at, keyed, found, itemKey);
    }
  }

  lemma {:induction false} ItemsFormSame(root: Json, at: Path, keyed: map<Path, KeyLists>, found: map<Path, KeyLists>,
          itemKey: ItemKey)
    requires SameFrom(at, keyed, found) && (at in keyed <==> at in found)
    requires root.Arr? && ItemsByKey(root.items, itemKey).Some?
    ensures Form(root, at, keyed, itemKey) == Form(root, at, found, itemKey)
    decreases Height(root), 0
  {
    var items := ItemsByKey(root.items, itemKey).value.items;
    forall k | k in items ensures Form(items[k], at + [k], keyed, itemKey) == Form(items[k], at + [k], found, itemKey) {
      ChildIsLower(root, itemKey, k);
      SameBelow(at, k, keyed, found);
      FormSame(items[k], at + [k], keyed, found, itemKey);
    }
    if at in keyed {
      ItemsForm(root, at, keyed, itemKey);
      ItemsForm(root, at, found, itemKey);
      assert FormFields(items, at, keyed, itemKey) == FormFields(items, at, found, itemKey);
    }
  }

  lemma ItemsForm(root: Json, at: Path, keyed: map<Path, KeyLists>, itemKey: ItemKey)
    requires root.Arr? && ItemsByKey(root.items, itemKey).Some? && at in keyed
    ensures Form(root, at, keyed, itemKey) == Obj(FormFields(ItemsByKey(root.items, itemKey).value.items, at, keyed,
              itemKey))
  {
  }

  /** The roots' forms, by what a walk over them finds. */
  ghost predicate Formed(forms: Roots, roots: Roots, at: Path, itemKey: ItemKey) {
    |forms| == |roots|
      && forall i | 0 <= i < |roots| :: forms[i] == FormOf(roots[i], at, KeyedArraysOf(roots, at, itemKey), itemKey)
  }

  /** The forms of what the roots hold under `name`. */
  ghost predicate Rewrites(forms: Roots, roots: Roots, at: Path, itemKey: ItemKey, name: string,
          all: map<Path, KeyLists>)
    requires !LevelOf(roots, itemKey).Whole?
  {
    var kids := Below(LevelOf(roots, itemKey).children, name);
    |forms| == |kids| && forall i | 0 <= i < |kids| :: forms[i] == FormOf(kids[i], at + [name], all, itemKey)
  }

  ghost predicate AllRewritten(rewritten: map<string, Roots>, roots: Roots, at: Path, itemKey: ItemKey)
    requires !LevelOf(roots, itemKey).Whole?
  {
    forall n | n in rewritten :: Rewrites(rewritten[n], roots, at, itemKey, n, KeyedArraysOf(roots, at, itemKey))
  }

  lemma MoreRewritten(rewritten: map<string, Roots>, roots: Roots, at: Path, itemKey: ItemKey, name: string,
          kids: Roots)
    requires !LevelOf(roots, itemKey).Whole? && AllRewritten(rewritten, roots, at, itemKey)
    requires Rewrites(kids, roots, at, itemKey, name, KeyedArraysOf(roots, at, itemKey))
    ensures AllRewritten(rewritten[name := kids], roots, at, itemKey)
    ensures rewritten[name := kids].Keys == rewritten.Keys + {name}
  {
  }

  lemma KidsRewrite(forms: Roots, roots: Roots, at: Path, itemKey: ItemKey, name: string)
    requires !LevelOf(roots, itemKey).Whole? && name in NameSet(LevelOf(roots, itemKey).children)
    requires Formed(forms, Below(LevelOf(roots, itemKey).children, name), at + [name], itemKey)
    ensures Rewrites(forms, roots, at, itemKey, name, KeyedArraysOf(roots, at, itemKey))
  {
    var (kids, all) := (Below(LevelOf(roots, itemKey).children, name), KeyedArraysOf(roots, at, itemKey));
    FoundBelow(roots, at, itemKey, all, name);
    forall i | 0 <= i < |kids| ensures forms[i] == FormOf(kids[i], at + [name], all, itemKey) {
      if kids[i].Some? {
        FormSame(kids[i].value, at + [name], all, WalkBelow(roots, at, itemKey, name), itemKey);
      }
    }
  }

  lemma SeenSomewhere(roots: Roots, at: Path, itemKey: ItemKey, q: Path)
    requires !LevelOf(roots, itemKey).Whole? && q in KeyedArraysOf(roots, at, itemKey)
    ensures Seen(q, at, NameSet(LevelOf(roots, itemKey).children))
  {
    if q != at {
      FoundAt(roots, at, itemKey, q);
    }
  }

  lemma AllSeen(roots: Roots, at: Path, itemKey: ItemKey)
    requires !LevelOf(roots, itemKey).Whole?
    ensures forall q | q in KeyedArraysOf(roots, at, itemKey) :: Seen(q, at, NameSet(LevelOf(roots, itemKey).children))
  {
    forall q | q in KeyedArraysOf(roots, at, itemKey) ensures Seen(q, at, NameSet(LevelOf(roots, itemKey).children)) {
      SeenSomewhere(roots, at, itemKey, q);
    }
  }

  lemma GatheredAll(lists: map<Path, KeyLists>, was: map<Path, KeyLists>, all: map<Path, KeyLists>, at: Path,
          names: set<string>)
    requires Gathered(lists, was, all, at, names) && forall q | q in all :: Seen(q, at, names)
    ensures lists == was + all
  {
  }

  function FormFields(children: map<string, Json>, at: Path, keyed: map<Path, KeyLists>, itemKey: ItemKey): map<string,
          Json>
  {
    map n | n in children :: Form(children[n], at + [n], keyed, itemKey)
  }

  lemma FormHere(roots: Roots, at: Path, itemKey: ItemKey, i: nat)
    requires !LevelOf(roots, itemKey).Whole? && i < |roots| && roots[i].Some?
    ensures LevelOf(roots, itemKey).children[i].Some?
    ensures var all := KeyedArraysOf(roots, at, itemKey);
            Form(roots[i].value, at, all, itemKey)
              == Obj(FormFields(LevelOf(roots, itemKey).children[i].value, at, all, itemKey))
  {
    assert roots[i] in roots;
    KeyedHere(roots, at, itemKey);
  }

  lemma KeyedHere(roots: Roots, at: Path, itemKey: ItemKey)
    ensures at in KeyedArraysOf(roots, at, itemKey) <==> LevelOf(roots, itemKey).Items?
  {
    if at in KeyedArraysOf(roots, at, itemKey) {
      FoundHere(roots, at, itemKey);
    }
  }

  /** A root with each child replaced by its form. */
  function Rebuilt(children: Option<map<string, Json>>, rewritten: map<string, Roots>, i: nat): Option<Json> {
    if children.None? then None
    else Some(Obj(map n | n in children.value && n in rewritten && i < |rewritten[n]| && rewritten[n][i].Some? ::
      rewritten[n][i].value))
  }

  lemma RebuiltFields(children: map<string, Json>, rewritten: map<string, Roots>, i: nat, at: Path,
          all: map<Path, KeyLists>, itemKey: ItemKey)
    requires forall n | n in children ::
             n in rewritten && i < |rewritten[n]| && rewritten[n][i] == Some(Form(children[n], at + [n], all, itemKey))
    ensures Rebuilt(Some(children), rewritten, i) == Some(Obj(FormFields(children, at, all, itemKey)))
  {
    assert Rebuilt(Some(children), rewritten, i).value.fields == FormFields(children, at, all, itemKey);
  }

  lemma RewrittenKid(forms: Roots, roots: Roots, at: Path, itemKey: ItemKey, name: string, all: map<Path, KeyLists>,
          i: nat)
    requires !LevelOf(roots, itemKey).Whole? && i < |roots| && Rewrites(forms, roots, at, itemKey, name, all)
    requires LevelOf(roots, itemKey).children[i].Some? && name in LevelOf(roots, itemKey).children[i].value
    ensures i < |forms|
            && forms[i] == Some(Form(LevelOf(roots, itemKey).children[i].value[name], at + [name], all, itemKey))
  {
    assert Below(LevelOf(roots, itemKey).children, name)[i].Some?;
  }

  lemma ChildrenPresent(roots: Roots, itemKey: ItemKey, i: nat)
    requires !LevelOf(roots, itemKey).Whole? && i < |roots|
    ensures LevelOf(roots, itemKey).children[i].Some? <==> roots[i].Some?
  {
    if roots[i].Some? {
      assert roots[i] in roots;
    }
  }

  lemma RebuiltForm(roots: Roots, at: Path, itemKey: ItemKey, rewritten: map<string, Roots>, i: nat)
    requires !LevelOf(roots, itemKey).Whole? && i < |roots|
             && rewritten.Keys == NameSet(LevelOf(roots, itemKey).children)
    requires AllRewritten(rewritten, roots, at, itemKey)
    ensures Rebuilt(LevelOf(roots, itemKey).children[i], rewritten, i)
         == FormOf(roots[i], at, KeyedArraysOf(roots, at, itemKey), itemKey)
  {
    var (held, all) := (LevelOf(roots, itemKey).children[i], KeyedArraysOf(roots, at, itemKey));
    ChildrenPresent(roots, itemKey, i);
    if held.Some? {
      forall n | n in held.value
        ensures n in rewritten && i < |rewritten[n]|
                && rewritten[n][i] == Some(Form(held.value[n], at + [n], all, itemKey))
      {
        assert n in NameSet(LevelOf(roots, itemKey).children);
        RewrittenKid(rewritten[n], roots, at, itemKey, n, all, i);
      }
      RebuiltFields(held.value, rewritten, i, at, all, itemKey);
      FormHere(roots, at, itemKey, i);
    }
  }

  lemma WholeForms(roots: Roots, at: Path, itemKey: ItemKey)
    requires LevelOf(roots, itemKey).Whole?
    ensures KeyedArraysOf(roots, at, itemKey) == map[] && Formed(roots, roots, at, itemKey)
  {
    forall i | 0 <= i < |roots| && roots[i].Some? ensures Form(roots[i].value, at, map[], itemKey) == roots[i].value {
      FitsNothing(roots[i].value, at, map[], itemKey, 0);
    }
  }

  /** The lists of the roots' own array, when they hold one matched by key. */
  function HereLists(roots: Roots, itemKey: ItemKey): Option<KeyLists> {
    var level := LevelOf(roots, itemKey);
    if level.Items? then Some(level.lists) else None
  }

  lemma FoundHereLists(roots: Roots, at: Path, itemKey: ItemKey)
    ensures var all := KeyedArraysOf(roots, at, itemKey);
            (at in all <==> HereLists(roots, itemKey).Some?)
              && (at in all ==> all[at] == HereLists(roots, itemKey).value)
  {
    KeyedHere(roots, at, itemKey);
    if at in KeyedArraysOf(roots, at, itemKey) {
      FoundHere(roots, at, itemKey);
    }
  }

  lemma GatherHere(was: map<Path, KeyLists>, all: map<Path, KeyLists>, at: Path, here: Option<KeyLists>)
    requires (at in all <==> here.Some?) && (at in all ==> all[at] == here.value)
    ensures Gathered(if here.Some? then was[at := here.value] else was, was, all, at, {})
  {
  }

  /** Rewrites each array matched by key in all roots to its object form, recording its keys in `keyed`. */
  method WithArraysByKey(roots: Roots, at: Path, itemKey: ItemKey, keyed: KeyedMap) returns (forms: Roots)
    modifies keyed
    ensures keyed.lists == old(keyed.lists) + KeyedArraysOf(roots, at, itemKey)
    ensures Formed(forms, roots, at, itemKey)
    decreases Tallest(roots), 2
  {
    var level := LevelOf(roots, itemKey);
    if level.Whole? {
      WholeForms(roots, at, itemKey);
      return roots;
    }
    ghost var (was, all) := (keyed.lists, KeyedArraysOf(roots, at, itemKey));
    FoundHereLists(roots, at, itemKey);
    GatherHere(was, all, at, HereLists(roots, itemKey));
    if level.Items? {
      keyed.lists := keyed.lists[at := level.lists];
    }
    var rewritten := RewriteAll(roots, at, itemKey, keyed, was);
    AllSeen(roots, at, itemKey);
    GatheredAll(keyed.lists, was, all, at, rewritten.Keys);
    forms := Rebuild(roots, at, itemKey, rewritten);
  }

  method RewriteAll(roots: Roots, at: Path, itemKey: ItemKey, keyed: KeyedMap, ghost was: map<Path, KeyLists>)
        returns (rewritten: map<string, Roots>)
    requires !LevelOf(roots, itemKey).Whole? && Gathered(keyed.lists, was, KeyedArraysOf(roots, at, itemKey), at, {})
    modifies keyed
    ensures rewritten.Keys == NameSet(LevelOf(roots, itemKey).children)
    ensures Gathered(keyed.lists, was, KeyedArraysOf(roots, at, itemKey), at, rewritten.Keys)
    ensures AllRewritten(rewritten, roots, at, itemKey)
    decreases Tallest(roots), 1
  {
    var names := NameSet(LevelOf(roots, itemKey).children);
    var todo := names;
    ghost var done: set<string> := {};
    rewritten := map[];
    while todo != {}
      invariant todo <= names && done == names - todo && rewritten.Keys == done
      invariant AllRewritten(rewritten, roots, at, itemKey)
      invariant Gathered(keyed.lists, was, KeyedArraysOf(roots, at, itemKey), at, done)
    {
      var name :| name in todo;
      var kids := RewriteChildren(roots, at, itemKey, name, keyed, was, done);
      MoreRewritten(rewritten, roots, at, itemKey, name, kids);
      rewritten, todo, done := rewritten[name := kids], todo - {name}, done + {name};
    }
  }

  method RewriteChildren(roots: Roots, at: Path, itemKey: ItemKey, name: string, keyed: KeyedMap,
                         ghost was: map<Path, KeyLists>, ghost done: set<string>)
    returns (kids: Roots)
    requires !LevelOf(roots, itemKey).Whole? && name in NameSet(LevelOf(roots, itemKey).children)
    requires Gathered(keyed.lists, was, KeyedArraysOf(roots, at, itemKey), at, done)
    modifies keyed
    ensures Gathered(keyed.lists, was, KeyedArraysOf(roots, at, itemKey), at, done + {name})
    ensures Rewrites(kids, roots, at, itemKey, name, KeyedArraysOf(roots, at, itemKey))
    decreases Tallest(roots), 0
  {
    BelowIsLower(roots, itemKey, name);
    BelowIsPart(roots, at, itemKey, name);
    GatherMore(keyed.lists, was, KeyedArraysOf(roots, at, itemKey), WalkBelow(roots, at, itemKey, name), at, done,
      name);
    kids := WithArraysByKey(Below(LevelOf(roots, itemKey).children, name), at + [name], itemKey, keyed);
    KidsRewrite(kids, roots, at, itemKey, name);
  }

  method Rebuild(roots: Roots, ghost at: Path, itemKey: ItemKey, rewritten: map<string, Roots>) returns (forms: Roots)
    requires !LevelOf(roots, itemKey).Whole? && rewritten.Keys == NameSet(LevelOf(roots, itemKey).children)
    requires AllRewritten(rewritten, roots, at, itemKey)
    ensures Formed(forms, roots, at, itemKey)
  {
    var level := LevelOf(roots, itemKey);
    forms := seq(|roots|, i requires 0 <= i < |roots| => Rebuilt(level.children[i], rewritten, i));
    forall i | 0 <= i < |roots| ensures forms[i] == FormOf(roots[i], at, KeyedArraysOf(roots, at, itemKey), itemKey) {
      RebuiltForm(roots, at, itemKey, rewritten, i);
    }
  }
}
