/** Lists of names in which no name repeats. */
module Listings {

  function Members(list: seq<string>): set<string> {
    set k | k in list
  }

  /** No name stands in `list` twice. */
  predicate Distinct(list: seq<string>) {
    list == [] || (list[0] !in list[1..] && Distinct(list[1..]))
  }

  /** `list` is `s` in some order, each element once. */
  ghost predicate Listing(list: seq<string>, s: set<string>) {
    (forall k :: k in list <==> k in s) && Distinct(list)
  }

  lemma DistinctCons(k: string, rest: seq<string>)
    ensures Distinct([k] + rest) <==> k !in rest && Distinct(rest)
  {
    assert ([k] + rest)[1..] == rest;
  }

  lemma {:induction false} DistinctConcat(a: seq<string>, b: seq<string>)
    requires Distinct(a) && Distinct(b) && forall k | k in a :: k !in b
    ensures Distinct(a + b)
  {
    if a == [] {
      assert a + b == b;
    } else {
      assert (a + b)[1..] == a[1..] + b;
      DistinctConcat(a[1..], b);
    }
  }

  lemma {:induction false} DistinctAt(list: seq<string>, i: nat, j: nat)
    requires Distinct(list) && i < j < |list|
    ensures list[i] != list[j]
  {
    if i == 0 {
      assert list[j] == list[1..][j - 1];
    } else {
      DistinctAt(list[1..], i - 1, j - 1);
    }
  }

  lemma OneMore<T>(list: seq<T>, n: nat)
    requires n < |list|
    ensures list[..n + 1] == list[..n] + [list[n]]
  {
  }

  function Reversed(list: seq<string>): (r: seq<string>)
    ensures |r| == |list|
  {
    if list == [] then [] else Reversed(list[1..]) + [list[0]]
  }

  lemma {:induction false} ReversedAt(list: seq<string>, i: nat)
    requires i < |list|
    ensures Reversed(list)[i] == list[|list| - 1 - i]
  {
    if i < |list| - 1 {
      ReversedAt(list[1..], i);
    }
  }

  lemma {:induction false} ReversedLists(list: seq<string>, s: set<string>)
    requires Listing(list, s)
    ensures Listing(Reversed(list), s)
  {
    if list != [] {
      var (k, rest) := (list[0], list[1..]);
      assert list == [k] + rest;
      assert forall l :: l in rest <==> l in s - {k};
      ReversedLists(rest, s - {k});
      DistinctConcat(Reversed(rest), [k]);
    }
  }

  lemma HasNone(list: seq<string>)
    ensures (forall k :: k !in list) <==> list == []
  {
    if list != [] {
      assert list[0] in list;
    }
  }
}
