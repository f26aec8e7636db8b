/** Where the arrangement puts an item that only one side lists: after the item it follows there. */
module InsertedItems {
  import opened Options
  import opened Listings
  import opened KeyOrders

  /** The last key of `kept` before `k` in `list`, `before` when none is. */
  function Anchor(list: seq<string>, kept: set<string>, before: Option<string>, k: string): Option<string> {
    if list == [] || list[0] == k then before
    else Anchor(list[1..], kept, if list[0] in kept then Some(list[0]) else before, k)
  }

  lemma {:induction false} FollowsItsAnchor(list: seq<string>, kept: set<string>, anchor: Option<string>, k: string,
          of: Option<string>)
    requires Distinct(list) && k in list && k !in kept && (anchor.Some? ==> anchor.value !in list)
    ensures k in Followers(list, kept, anchor, of) <==> of == Anchor(list, kept, anchor, k)
  {
    var (h, rest) := (list[0], list[1..]);
    FollowersOutside(rest, kept, if h in kept then Some(h) else anchor, of);
    if h != k {
      FollowsItsAnchor(rest, kept, if h in kept then Some(h) else anchor, k, of);
    }
  }

  lemma {:induction false} FollowersDistinct(list: seq<string>, kept: set<string>, anchor: Option<string>,
          of: Option<string>)
    requires Distinct(list)
    ensures Distinct(Followers(list, kept, anchor, of))
  {
    if list != [] {
      var next := if list[0] in kept then Some(list[0]) else anchor;
      FollowersDistinct(list[1..], kept, next, of);
      FollowersOutside(list[1..], kept, next, of);
      DistinctCons(list[0], Followers(list[1..], kept, next, of));
    }
  }

  /** Keys outside `kept` leave the anchor of what comes after them as it is. */
  lemma {:induction false} AnchorPast(run: seq<string>, rest: seq<string>, kept: set<string>, before: Option<string>,
          k: string)
    requires forall x | x in run :: x !in kept
    ensures Anchor(run + rest, kept, before, k) == if k in run then before else Anchor(rest, kept, before, k)
  {
    if run == [] {
      assert run + rest == rest;
    } else {
      assert (run + rest)[1..] == run[1..] + rest;
      if run[0] != k {
        AnchorPast(run[1..], rest, kept, before, k);
      }
    }
  }

  lemma {:induction false} AnchorWoven(list: seq<string>, after: Option<string> -> seq<string>, kept: set<string>,
          before: Option<string>, k: string, of: string)
    requires Distinct(list) && of in list && k !in kept && forall a | a in list :: a in kept
    requires forall a | a in list :: forall x | x in after(Some(a)) :: x !in kept
    requires forall a | a in list :: k in after(Some(a)) <==> a == of
    ensures Anchor(Woven(list, after), kept, before, k) == Some(of)
  {
    var (a, rest) := (list[0], list[1..]);
    var (run, more) := (after(Some(a)), Woven(rest, after));
    assert a in list && Woven(list, after) == [a] + (run + more);
    assert ([a] + (run + more))[1..] == run + more;
    AnchorPast(run, more, kept, Some(a), k);
    if a != of {
      AnchorWoven(rest, after, kept, Some(a), k, of);
    }
  }

  lemma {:induction false} WovenDistinct(list: seq<string>, after: Option<string> -> seq<string>, kept: set<string>)
    requires Distinct(list) && forall a | a in list :: a in kept
    requires forall a | a in list :: Distinct(after(Some(a))) && forall x | x in after(Some(a)) :: x !in kept
    requires forall a, b, x | a in list && b in list && x in after(Some(a)) && x in after(Some(b)) :: a == b
    ensures Distinct(Woven(list, after))
  {
    if list != [] {
      var (a, rest) := (list[0], list[1..]);
      WovenDistinct(rest, after, kept);
      WovenMembers(rest, after);
      assert a in list;
      DistinctConcat(after(Some(a)), Woven(rest, after));
      DistinctCons(a, after(Some(a)) + Woven(rest, after));
    }
  }

  /** The list of the side whose order is not the kept one. */
  predicate Sides(lists: KeyLists, kept: seq<string>, other: seq<string>) {
    |lists| == 3 && (lists[1..] == [Some(kept), Some(other)] || lists[1..] == [Some(other), Some(kept)])
  }

  lemma RunsOfOther(lists: KeyLists, kept: seq<string>, other: seq<string>, of: Option<string>)
    requires Sides(lists, kept, other)
    ensures Following(lists, Members(kept), of) == Followers(other, Members(kept), None, of)
  {
    assert lists[1..][0] == lists[1] && lists[1..][1] == lists[2];
    FollowersOutside(kept, Members(kept), None, of);
  }

  /** Each key of `other` outside `kept` is in just one run of `after`, that of its anchor. */
  ghost predicate Runs(after: Option<string> -> seq<string>, other: seq<string>, kept: set<string>) {
    && (forall of :: Distinct(after(of)) && forall x | x in after(of) :: x in other && x !in kept)
    && forall x, of | x in other && x !in kept :: x in after(of) <==> of == Anchor(other, kept, None, x)
  }

  lemma FollowingRuns(lists: KeyLists, kept: seq<string>, other: seq<string>)
    requires Sides(lists, kept, other) && Distinct(other)
    ensures Runs(of => Following(lists, Members(kept), of), other, Members(kept))
  {
    var (ks, after) := (Members(kept), of => Following(lists, Members(kept), of));
    forall of
      ensures after(of) == Followers(other, ks, None, of) && Distinct(after(of))
              && forall x | x in after(of) :: x in other && x !in ks
    {
      RunsOfOther(lists, kept, other, of);
      FollowersDistinct(other, ks, None, of);
      FollowersOutside(other, ks, None, of);
    }
    forall x, of | x in other && x !in ks ensures x in after(of) <==> of == Anchor(other, ks, None, x) {
      FollowsItsAnchor(other, ks, None, x, of);
    }
  }

  lemma WovenRuns(kept: seq<string>, after: Option<string> -> seq<string>, other: seq<string>)
    requires Distinct(kept) && Runs(after, other, Members(kept))
    ensures Distinct(after(None) + Woven(kept, after))
  {
    forall a, b, x | a in kept && b in kept && x in after(Some(a)) && x in after(Some(b)) ensures a == b {
      assert Some(a) == Anchor(other, Members(kept), None, x);
    }
    WovenDistinct(kept, after, Members(kept));
    WovenMembers(kept, after);
    DistinctConcat(after(None), Woven(kept, after));
  }

  /** An item that one side inserted follows, in the merged order, the very kept item it follows on that side. */
  lemma InsertedFollowsItsAnchor(lists: KeyLists, kept: seq<string>, other: seq<string>, k: string)
    requires Lists(lists) && Sides(lists, kept, other) && Distinct(kept) && Distinct(other)
    requires k in other && k !in kept
    ensures Anchor(FullOrder(lists, kept), Members(kept), None, k) == Anchor(other, Members(kept), None, k)
  {
    var after := of => Following(lists, Members(kept), of);
    FollowingRuns(lists, kept, other);
    WovenRuns(kept, after, other);
    UniqueOfDistinct(after(None) + Woven(kept, after));
    RunsAnchor(kept, after, other, k);
  }

  lemma RunsAnchor(kept: seq<string>, after: Option<string> -> seq<string>, other: seq<string>, k: string)
    requires Distinct(kept) && Runs(after, other, Members(kept)) && k in other && k !in kept
    ensures Anchor(after(None) + Woven(kept, after), Members(kept), None, k) == Anchor(other, Members(kept), None, k)
  {
    var of := Anchor(other, Members(kept), None, k);
    AnchorPast(after(None), Woven(kept, after), Members(kept), None, k);
    assert k in after(None) <==> of == None;
    if of.Some? {
      AnchorKept(other, Members(kept), None, k);
      AnchorWoven(kept, after, Members(kept), None, k, of.value);
    }
  }

  lemma {:induction false} AnchorKept(list: seq<string>, kept: set<string>, before: Option<string>, k: string)
    requires before.Some? ==> before.value in kept
    ensures Anchor(list, kept, before, k).Some? ==> Anchor(list, kept, before, k).value in kept
  {
    if list != [] && list[0] != k {
      AnchorKept(list[1..], kept, if list[0] in kept then Some(list[0]) else before, k);
    }
  }
}
