/** The order in which an array matched by key keeps its items, and where inserted items go. */
module KeyOrders {
  import opened Options
  import opened Listings

  /** The keys of one array in the base, the user's root and the refetch; `None` where that root holds no array. */
  type KeyLists = seq<Option<seq<string>>>

  function Only(list: seq<string>, s: set<string>): seq<string> {
    if list == [] then []
    else if list[0] in s then [list[0]] + Only(list[1..], s)
    else Only(list[1..], s)
  }

  predicate HeldBy(list: Option<seq<string>>, k: string) {
    list.Some? ==> k in list.value
  }

  /** The keys of the base that every other root with the array holds. */
  function Shared(lists: KeyLists): set<string>
    requires |lists| == 3 && lists[0].Some?
  {
    set k | k in lists[0].value && HeldBy(lists[1], k) && HeldBy(lists[2], k)
  }

  function OnlyIn(list: Option<seq<string>>, s: set<string>): Option<seq<string>> {
    if list.Some? then Some(Only(list.value, s)) else None
  }

  function KeptOrder(lists: KeyLists): Option<seq<string>>
    requires |lists| == 3
  {
    var (base, ours, theirs) := (lists[0], lists[1], lists[2]);
    if base.None? || (ours.None? && theirs.None?) then Some(Or(Or(theirs, ours), Some([])).value)
    else
      var shared := Shared(lists);
      var (was, user, foreign) := (OnlyIn(base, shared), OnlyIn(ours, shared), OnlyIn(theirs, shared));
      if ours.None? || theirs.None? then (if Or(user, foreign) == was then Or(theirs, ours) else None)
      else if user == was || user == foreign then theirs
      else if foreign == was then ours
      else None
  }

  /**
   * The keys of `list` outside `kept` that follow the kept key `of` there, or start the list for `None`. `anchor`
   * precedes the list.
   */
  function Followers(list: seq<string>, kept: set<string>, anchor: Option<string>, of: Option<string>): seq<string> {
    if list == [] then []
    else if list[0] in kept then Followers(list[1..], kept, Some(list[0]), of)
    else if anchor == of then [list[0]] + Followers(list[1..], kept, anchor, of)
    else Followers(list[1..], kept, anchor, of)
  }

  function ListOr(list: Option<seq<string>>): seq<string> {
    if list.Some? then list.value else []
  }

  function Following(lists: KeyLists, kept: set<string>, of: Option<string>): seq<string>
    requires |lists| == 3
  {
    Followers(ListOr(lists[1]), kept, None, of) + Followers(ListOr(lists[2]), kept, None, of)
  }

  /** Each kept key, followed by what `after` puts behind it. */
  function Woven(kept: seq<string>, after: Option<string> -> seq<string>): seq<string> {
    if kept == [] then [] else [kept[0]] + (after(Some(kept[0])) + Woven(kept[1..], after))
  }

  /** `list` without repetitions: the first of each key stays. */
  function Unique(list: seq<string>): seq<string> {
    if list == [] then []
    else
      var front := Unique(list[..|list| - 1]);
      if list[|list| - 1] in front then front else front + [list[|list| - 1]]
  }

  /** The order of every key that the kept order or one of the two sides lists. */
  function FullOrder(lists: KeyLists, kept: seq<string>): seq<string>
    requires |lists| == 3
  {
    Unique(Following(lists, Members(kept), None) + Woven(kept, of => Following(lists, Members(kept), of)))
  }

  /** The order of the merged keys `present`. */
  function ArrangedKeys(present: set<string>, lists: KeyLists, kept: seq<string>): seq<string>
    requires |lists| == 3
  {
    Only(FullOrder(lists, kept), present)
  }

  // Sublists.

  lemma OnlyCons(h: string, rest: seq<string>, s: set<string>)
    ensures Only([h] + rest, s) == if h in s then [h] + Only(rest, s) else Only(rest, s)
  {
    assert ([h] + rest)[1..] == rest;
  }

  lemma OnlyOne(h: string, s: set<string>)
    ensures Only([h], s) == if h in s then [h] else []
  {
    OnlyCons(h, [], s);
    assert [h] + [] == [h];
  }

  lemma {:induction false} OnlyConcat(a: seq<string>, b: seq<string>, s: set<string>)
    ensures Only(a + b, s) == Only(a, s) + Only(b, s)
  {
    if a == [] {
      assert a + b == b;
    } else {
      assert (a + b)[1..] == a[1..] + b;
      OnlyConcat(a[1..], b, s);
    }
  }

  lemma {:induction false} OnlyMembers(list: seq<string>, s: set<string>)
    ensures forall k :: k in Only(list, s) <==> k in list && k in s
    ensures Distinct(list) ==> Distinct(Only(list, s))
  {
    if list != [] {
      OnlyMembers(list[1..], s);
      DistinctCons(list[0], Only(list[1..], s));
    }
  }

  lemma {:induction false} OnlyAll(list: seq<string>, s: set<string>)
    ensures (forall k | k in list :: k in s) ==> Only(list, s) == list
    ensures (forall k | k in list :: k !in s) ==> Only(list, s) == []
  {
    if list != [] {
      OnlyAll(list[1..], s);
    }
  }

  lemma {:induction false} OnlyAlike(list: seq<string>, s: set<string>, r: set<string>)
    requires forall k | k in list :: k in s <==> k in r
    ensures Only(list, s) == Only(list, r)
  {
    if list != [] {
      OnlyAlike(list[1..], s, r);
    }
  }

  lemma {:induction false} UniqueMembers(list: seq<string>)
    ensures forall k :: k in Unique(list) <==> k in list
    ensures Distinct(Unique(list))
  {
    if list != [] {
      var (front, last) := (list[..|list| - 1], list[|list| - 1]);
      UniqueMembers(front);
      assert list == front + [last];
      if last !in Unique(front) {
        assert Distinct([last]);
        DistinctConcat(Unique(front), [last]);
      }
    }
  }

  lemma {:induction false} DistinctFront(list: seq<string>)
    requires Distinct(list) && list != []
    ensures Distinct(list[..|list| - 1]) && list[|list| - 1] !in list[..|list| - 1]
  {
    if |list| > 1 {
      DistinctFront(list[1..]);
      assert list[..|list| - 1][1..] == list[1..][..|list| - 2];
      assert list[..|list| - 1] == [list[0]] + list[1..][..|list| - 2];
    }
  }

  lemma {:induction false} UniqueOfDistinct(list: seq<string>)
    requires Distinct(list)
    ensures Unique(list) == list
  {
    if list != [] {
      DistinctFront(list);
      UniqueOfDistinct(list[..|list| - 1]);
    }
  }

  lemma {:induction false} OnlyOfUnique(list: seq<string>, s: set<string>)
    ensures Only(Unique(list), s) == Unique(Only(list, s))
  {
    if list != [] {
      var (front, last) := (list[..|list| - 1], list[|list| - 1]);
      assert list == front + [last];
      OnlyOfUnique(front, s);
      OnlySnoc(front, last, s);
      OnlySnoc(Unique(front), last, s);
      OnlyMembers(Unique(front), s);
      UniqueSnoc(Only(front, s), last);
    }
  }

  lemma OnlySnoc(front: seq<string>, last: string, s: set<string>)
    ensures Only(front + [last], s) == if last in s then Only(front, s) + [last] else Only(front, s)
  {
    OnlyConcat(front, [last], s);
    OnlyOne(last, s);
  }

  lemma UniqueSnoc(front: seq<string>, last: string)
    ensures Unique(front + [last]) == if last in Unique(front) then Unique(front) else Unique(front) + [last]
  {
    assert (front + [last])[..|front|] == front;
  }

  // Followers.

  lemma {:induction false} FollowersOutside(list: seq<string>, kept: set<string>, anchor: Option<string>,
          of: Option<string>)
    ensures forall k | k in Followers(list, kept, anchor, of) :: k in list && k !in kept
    ensures (forall k | k in list :: k in kept) ==> Followers(list, kept, anchor, of) == []
    ensures of != anchor && (of == None || of.value !in list) ==> Followers(list, kept, anchor, of) == []
  {
    if list != [] {
      FollowersOutside(list[1..], kept, if list[0] in kept then Some(list[0]) else anchor, of);
    }
  }

  /** Every key outside `kept` follows some key of it, or starts the list. */
  lemma {:induction false} FollowsSome(list: seq<string>, kept: set<string>, anchor: Option<string>, k: string)
        returns (of: Option<string>)
    requires k in list && k !in kept
    requires anchor.Some? ==> anchor.value in kept
    ensures k in Followers(list, kept, anchor, of) && (of.Some? ==> of.value in kept)
  {
    if k == list[0] {
      of := anchor;
    } else {
      of := FollowsSome(list[1..], kept, if list[0] in kept then Some(list[0]) else anchor, k);
    }
  }

  lemma {:induction false} WovenMembers(kept: seq<string>, after: Option<string> -> seq<string>)
    ensures forall k :: k in Woven(kept, after) <==> k in kept || exists a :: a in kept && k in after(Some(a))
  {
    if kept != [] {
      WovenMembers(kept[1..], after);
      forall k ensures k in Woven(kept, after) <==> k in kept || exists a :: a in kept && k in after(Some(a)) {
        if k in Woven(kept, after) && k !in kept && k !in after(Some(kept[0])) {
          var a :| a in kept[1..] && k in after(Some(a));
          assert a in kept;
        }
      }
    }
  }

  /** What follows kept keys inside `s` stays with them, and nothing else is inside `s`. */
  lemma {:induction false} OnlyOfWoven(kept: seq<string>, after: Option<string> -> seq<string>, s: set<string>)
    requires forall a | a in kept :: Only(after(Some(a)), s) == if a in s then after(Some(a)) else []
    ensures Only(Woven(kept, after), s) == Woven(Only(kept, s), after)
  {
    if kept != [] {
      var (a, rest) := (kept[0], kept[1..]);
      assert a in kept;
      OnlyOfWoven(rest, after, s);
      var tail := after(Some(a)) + Woven(rest, after);
      assert Woven(kept, after) == [a] + tail;
      OnlyCons(a, tail, s);
      OnlyConcat(after(Some(a)), Woven(rest, after), s);
      assert kept == [a] + rest;
      OnlyCons(a, rest, s);
      if a in s {
        WovenCons(a, Only(rest, s), after);
      }
    }
  }

  lemma WovenCons(a: string, rest: seq<string>, after: Option<string> -> seq<string>)
    ensures Woven([a] + rest, after) == [a] + (after(Some(a)) + Woven(rest, after))
  {
    assert ([a] + rest)[1..] == rest;
  }

  lemma {:induction false} WovenAlone(kept: seq<string>, after: Option<string> -> seq<string>, s: set<string>)
    requires forall a | a in kept :: a in s && Only(after(Some(a)), s) == []
    ensures Only(Woven(kept, after), s) == kept
  {
    if kept != [] {
      var (a, rest) := (kept[0], kept[1..]);
      assert a in kept;
      WovenAlone(rest, after, s);
      var tail := after(Some(a)) + Woven(rest, after);
      assert Woven(kept, after) == [a] + tail;
      OnlyCons(a, tail, s);
      OnlyConcat(after(Some(a)), Woven(rest, after), s);
    }
  }

  lemma {:induction false} WovenSame(kept: seq<string>, after: Option<string> -> seq<string>,
          other: Option<string> -> seq<string>)
    requires forall a | a in kept :: after(Some(a)) == other(Some(a))
    ensures Woven(kept, after) == Woven(kept, other)
  {
    if kept != [] {
      assert kept[0] in kept;
      WovenSame(kept[1..], after, other);
    }
  }

  /** A list is its kept keys, each followed by its followers. */
  lemma {:induction false} ListWoven(list: seq<string>, kept: set<string>, anchor: Option<string>)
    requires Distinct(list) && (anchor.Some? ==> anchor.value !in list)
    ensures Followers(list, kept, anchor, anchor) + Woven(Only(list, kept), of => Followers(list, kept, anchor, of))
         == list
  {
    if list != [] {
      var (h, rest) := (list[0], list[1..]);
      var next := if h in kept then Some(h) else anchor;
      ListWoven(rest, kept, next);
      OnlyMembers(rest, kept);
      WovenSame(Only(rest, kept), of => Followers(list, kept, anchor, of), of => Followers(rest, kept, next, of));
      assert list == [h] + rest;
      if h in kept {
        KeptThenWoven(h, rest, kept, anchor);
      } else {
        var (run, more) := (Followers(rest, kept, anchor, anchor),
          Woven(Only(rest, kept), of => Followers(rest, kept, anchor, of)));
        assert ([h] + run) + more == [h] + (run + more);
      }
    }
  }

  lemma KeptThenWoven(h: string, rest: seq<string>, kept: set<string>, anchor: Option<string>)
    requires h in kept && h !in rest && (anchor.Some? ==> anchor.value != h && anchor.value !in rest)
    requires var here := of => Followers([h] + rest, kept, anchor, of);
             Followers(rest, kept, Some(h), Some(h)) + Woven(Only(rest, kept), here) == rest
    ensures Followers([h] + rest, kept, anchor, anchor)
            + Woven(Only([h] + rest, kept), of => Followers([h] + rest, kept, anchor, of))
         == [h] + rest
  {
    var list := [h] + rest;
    var here := of => Followers(list, kept, anchor, of);
    assert list[1..] == rest;
    FollowersOutside(rest, kept, Some(h), anchor);
    assert Followers(list, kept, anchor, anchor) == [];
    assert here(Some(h)) == Followers(rest, kept, Some(h), Some(h));
    OnlyCons(h, rest, kept);
    WovenCons(h, Only(rest, kept), here);
    assert Woven(Only(list, kept), here) == [h] + rest;
    assert [] + ([h] + rest) == [h] + rest;
  }

  // What the arrangement keeps.

  predicate AllDistinct(lists: KeyLists) {
    forall i | 0 <= i < |lists| && lists[i].Some? :: Distinct(lists[i].value)
  }

  predicate Lists(lists: KeyLists) {
    |lists| == 3 && AllDistinct(lists)
  }

  /** The kept order is one side's list, or empty where neither side has the array. */
  lemma KeptIsOneSide(lists: KeyLists)
    requires Lists(lists) && KeptOrder(lists).Some?
    ensures var kept := KeptOrder(lists).value;
            Distinct(kept)
              && (lists[1] == Some(kept) || lists[2] == Some(kept) || (lists[1] == lists[2] == None && kept == []))
  {
  }

  /** Every key that a side lists is placed, and placed once. */
  lemma PlacesEveryKeyOnce(lists: KeyLists, kept: seq<string>, present: set<string>)
    requires Lists(lists)
    requires forall k | k in present :: k in ListOr(lists[1]) || k in ListOr(lists[2])
    ensures Listing(ArrangedKeys(present, lists, kept), present)
  {
    var after := of => Following(lists, Members(kept), of);
    var order := Following(lists, Members(kept), None) + Woven(kept, after);
    UniqueMembers(order);
    OnlyMembers(Unique(order), present);
    WovenMembers(kept, after);
    forall k | k in present ensures k in order {
      if k !in kept {
        var list := if k in ListOr(lists[1]) then ListOr(lists[1]) else ListOr(lists[2]);
        var of := FollowsSome(list, Members(kept), None, k);
        assert k in after(of);
        assert of.Some? ==> of.value in kept;
      }
    }
  }

  /** The kept keys stand in the kept order. */
  lemma KeepsKeptOrder(lists: KeyLists, kept: seq<string>)
    requires Lists(lists) && Distinct(kept)
    ensures Only(FullOrder(lists, kept), Members(kept)) == kept
  {
    var (s, after) := (Members(kept), of => Following(lists, Members(kept), of));
    forall of ensures Only(after(of), s) == [] {
      FollowingOutside(lists, s, of);
    }
    WovenAlone(kept, after, s);
    OnlyConcat(after(None), Woven(kept, after), s);
    OnlyOfUnique(after(None) + Woven(kept, after), s);
    assert [] + kept == kept;
    UniqueOfDistinct(kept);
  }

  lemma FollowingOutside(lists: KeyLists, s: set<string>, of: Option<string>)
    requires |lists| == 3
    ensures Only(Following(lists, s, of), s) == []
  {
    FollowersOutside(ListOr(lists[1]), s, None, of);
    FollowersOutside(ListOr(lists[2]), s, None, of);
    OnlyAll(Following(lists, s, of), s);
  }

  /** When both sides order their common keys alike, the arrangement extends both of their whole orders. */
  lemma ExtendsBothOrders(lists: KeyLists, kept: seq<string>)
    requires Lists(lists) && lists[1].Some? && lists[2].Some?
    requires kept == lists[1].value || kept == lists[2].value
    requires Only(lists[1].value, Members(lists[2].value)) == Only(lists[2].value, Members(lists[1].value))
    ensures Only(FullOrder(lists, kept), Members(lists[1].value)) == lists[1].value
    ensures Only(FullOrder(lists, kept), Members(lists[2].value)) == lists[2].value
  {
    KeepsKeptOrder(lists, kept);
    ExtendsOther(lists, kept, if kept == lists[1].value then lists[2].value else lists[1].value);
  }

  lemma ExtendsOther(lists: KeyLists, kept: seq<string>, other: seq<string>)
    requires Lists(lists) && Distinct(kept) && Distinct(other)
    requires lists[1..] == [Some(kept), Some(other)] || lists[1..] == [Some(other), Some(kept)]
    requires Only(kept, Members(other)) == Only(other, Members(kept))
    ensures Only(FullOrder(lists, kept), Members(other)) == other
  {
    var (s, ks) := (Members(other), Members(kept));
    var (after, runs) := (of => Following(lists, ks, of), of => Followers(other, ks, None, of));
    assert lists[1..][0] == lists[1] && lists[1..][1] == lists[2];
    forall of ensures after(of) == runs(of) {
      FollowersOutside(kept, ks, None, of);
    }
    forall of ensures Only(runs(of), s) == runs(of) && (of.Some? && of.value !in other ==> runs(of) == []) {
      FollowersOutside(other, ks, None, of);
      OnlyAll(runs(of), s);
    }
    WovenSame(kept, after, runs);
    OnlyOfWoven(kept, runs, s);
    OnlyConcat(runs(None), Woven(kept, runs), s);
    ListWoven(other, ks, None);
    OnlyOfUnique(runs(None) + Woven(kept, runs), s);
    UniqueOfDistinct(other);
  }

  // What the kept order is, on the roots a replay often meets.

  /** On the base itself the user's order is kept whole. */
  lemma ArrangesOursOnBase(lists: KeyLists)
    requires Lists(lists) && lists[1].Some? && lists[2] == lists[0]
    ensures KeptOrder(lists).Some?
    ensures ArrangedKeys(Members(lists[1].value), lists, KeptOrder(lists).value) == lists[1].value
  {
    var ours := lists[1].value;
    if lists[0].Some? {
      var base := lists[0].value;
      OnlyAlike(ours, Shared(lists), Members(base));
      OnlyAlike(base, Shared(lists), Members(ours));
    }
    var kept := KeptOrder(lists).value;
    KeepsKeptOrder(lists, kept);
    if kept != ours {
      ExtendsBothOrders(lists, kept);
    }
  }

  lemma KeepsOrderOnOurs(lists: KeyLists)
    requires Lists(lists) && lists[2] == lists[1]
    ensures KeptOrder(lists).Some?
    ensures lists[1].Some? ==> ArrangedKeys(Members(lists[1].value), lists, KeptOrder(lists).value) == lists[1].value
  {
    if lists[1].Some? {
      KeepsKeptOrder(lists, lists[1].value);
    }
  }

  /** Shared keys stand in the user's order where only the user reordered them, else in the refetch's. */
  lemma SharedOrder(lists: KeyLists, present: set<string>)
    requires Lists(lists) && lists[0].Some? && lists[1].Some? && lists[2].Some? && KeptOrder(lists).Some?
    requires Shared(lists) <= present
    ensures var (was, user, foreign) := (OnlyIn(lists[0], Shared(lists)), OnlyIn(lists[1], Shared(lists)),
            OnlyIn(lists[2], Shared(lists)));
            Some(Only(ArrangedKeys(present, lists, KeptOrder(lists).value), Shared(lists)))
            == if foreign == was then user else foreign
  {
    var (kept, s) := (KeptOrder(lists).value, Shared(lists));
    var order := FullOrder(lists, kept);
    KeptIsOneSide(lists);
    KeepsKeptOrder(lists, kept);
    OnlyTwice(order, present, s);
    OnlyTwice(order, Members(kept), s);
  }

  lemma {:induction false} OnlyTwice(list: seq<string>, s: set<string>, r: set<string>)
    requires r <= s
    ensures Only(Only(list, s), r) == Only(list, r)
  {
    if list != [] {
      OnlyTwice(list[1..], s, r);
      assert list == [list[0]] + list[1..];
      OnlyCons(list[0], list[1..], s);
      OnlyCons(list[0], list[1..], r);
      OnlyCons(list[0], Only(list[1..], s), r);
    }
  }
}
