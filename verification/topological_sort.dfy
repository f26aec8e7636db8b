/** The order in which the code generator emits interfaces: base types first. */
module TopologicalSort {
  import opened Listings

  /** `s` without the members of `t`, in the order they stand in. */
  function NoneOf(s: seq<string>, t: set<string>): (r: seq<string>)
    ensures forall x :: x in r <==> x in s && x !in t
  {
    if s == [] then [] else (if s[0] in t then [] else [s[0]]) + NoneOf(s[1..], t)
  }

  /**
   * The names that the emitted interface `name` extends: its supertypes that are no type aliases. The element type
   * takes their place where none remains, and only there.
   */
  function GetExtends(superTypes: map<string, seq<string>>, typeAliases: set<string>, elementType: string, name: string)
      : (r: seq<string>)
    ensures r != []
    ensures var supers := if name in superTypes then superTypes[name] else [];
            forall s :: s in r <==> if forall t | t in supers :: t in typeAliases then s == elementType
                                    else s in supers && s !in typeAliases
  {
    var supers := if name in superTypes then superTypes[name] else [];
    var interfaces := NoneOf(supers, typeAliases);
    if interfaces == [] then
      assert forall t | t in supers :: t in typeAliases by {
        forall t | t in supers ensures t in typeAliases {
          assert t !in interfaces;
        }
      }
      [elementType]
    else
      assert interfaces[0] in interfaces;
      interfaces
  }

  type Relation = string -> seq<string>

  /** A path of dependencies among `names`. */
  ghost predicate IsChain(chain: seq<string>, names: set<string>, deps: Relation) {
    && (forall i | 0 <= i < |chain| :: chain[i] in names)
    && forall i | 0 < i < |chain| :: chain[i] in deps(chain[i - 1])
  }

  ghost predicate IsCycle(chain: seq<string>, names: set<string>, deps: Relation) {
    |chain| >= 2 && IsChain(chain, names, deps) && chain[0] == chain[|chain| - 1]
  }

  ghost predicate Acyclic(names: set<string>, deps: Relation) {
    forall chain: seq<string> :: !IsCycle(chain, names, deps)
  }

  /** Every name comes after all of its dependencies that are sorted too. */
  ghost predicate DependenciesFirst(sorted: seq<string>, names: set<string>, deps: Relation) {
    forall i, d | 0 <= i < |sorted| && d in deps(sorted[i]) && d in names :: d in sorted[..i]
  }

  lemma {:induction false} ChainDescends(chain: seq<string>, names: set<string>, deps: Relation, sorted: seq<string>,
          from: nat)
        returns (to: nat)
    requires IsChain(chain, names, deps) && chain != []
    requires Distinct(sorted) && DependenciesFirst(sorted, names, deps)
    requires from < |sorted| && sorted[from] == chain[0]
    ensures to < |sorted| && sorted[to] == chain[|chain| - 1] && (if |chain| == 1 then to == from else to < from)
    decreases |chain|
  {
    if |chain| == 1 {
      to := from;
    } else {
      assert chain[1] in deps(chain[0]) && chain[1] in sorted[..from];
      var next :| 0 <= next < from && sorted[next] == chain[1];
      forall i | 0 < i < |chain[1..]| ensures chain[1..][i] in deps(chain[1..][i - 1]) {
        assert chain[i + 1] in deps(chain[i]);
      }
      to := ChainDescends(chain[1..], names, deps, sorted, next);
    }
  }

  /** Only an acyclic relation has an order with every dependency first. */
  lemma OrderedIsAcyclic(sorted: seq<string>, names: set<string>, deps: Relation)
    requires Distinct(sorted) && Members(sorted) == names && DependenciesFirst(sorted, names, deps)
    ensures Acyclic(names, deps)
  {
    forall chain: seq<string> ensures !IsCycle(chain, names, deps) {
      if IsCycle(chain, names, deps) {
        assert chain[0] in Members(sorted);
        var from :| 0 <= from < |sorted| && sorted[from] == chain[0];
        var to := ChainDescends(chain, names, deps, sorted, from);
        DistinctAt(sorted, to, from);
        assert false;
      }
    }
  }

  lemma OneMoreSorted(sorted: seq<string>, name: string, names: set<string>, deps: Relation)
    requires Distinct(sorted) && name !in sorted
    ensures Distinct(sorted + [name]) && Members(sorted + [name]) == Members(sorted) + {name}
    ensures DependenciesFirst(sorted, names, deps) && (forall d | d in deps(name) && d in names :: d in sorted)
            ==> DependenciesFirst(sorted + [name], names, deps)
  {
    assert Distinct([name]);
    DistinctConcat(sorted, [name]);
    forall i | 0 <= i < |sorted| ensures (sorted + [name])[..i] == sorted[..i] {
    }
    assert (sorted + [name])[..|sorted|] == sorted;
  }

  class Sorter {
    const nameSet: set<string>
    const getDeps: Relation
    var visited: set<string>
    var sorted: seq<string>

    constructor (names: seq<string>, getDeps: Relation)
      ensures this.nameSet == Members(names) && this.getDeps == getDeps && visited == {} && sorted == []
    {
      nameSet, this.getDeps, visited, sorted := Members(names), getDeps, {}, [];
    }

    /** What is visited is sorted already, or on the path to the name being visited. */
    ghost predicate Valid(path: seq<string>)
      reads this
    {
      && visited <= nameSet && visited == Members(sorted) + Members(path)
      && Distinct(sorted) && Members(sorted) !! Members(path)
      && (Acyclic(nameSet, getDeps) ==> DependenciesFirst(sorted, nameSet, getDeps))
    }

    method Visit(name: string, ghost path: seq<string>)
      requires Valid(path) && name in nameSet && IsChain(path + [name], nameSet, getDeps)
      modifies this`visited, this`sorted
      ensures Valid(path) && name in visited && old(visited) <= visited && Members(old(sorted)) <= Members(sorted)
      ensures Acyclic(nameSet, getDeps) ==> name in sorted
      decreases nameSet - visited
    {
      if name in visited {
        if name in path {
          PathCloses(path, name, nameSet, getDeps);
        }
        return;
      }
      visited := visited + {name};
      ghost var here := path + [name];
      var deps := getDeps(name);
      for i := 0 to |deps|
        invariant Valid(here) && old(visited) + {name} <= visited && Members(old(sorted)) <= Members(sorted)
        invariant Acyclic(nameSet, getDeps) ==> forall d | d in deps[..i] && d in nameSet :: d in Members(sorted)
      {
        if deps[i] in nameSet {
          assert deps[i] in getDeps(here[|here| - 1]);
          Visit(deps[i], here);
        }
      }
      OneMoreSorted(sorted, name, nameSet, getDeps);
      sorted := sorted + [name];
    }
  }

  lemma PathCloses(path: seq<string>, name: string, names: set<string>, deps: Relation)
    requires IsChain(path + [name], names, deps) && name in path
    ensures !Acyclic(names, deps)
  {
    var j :| 0 <= j < |path| && path[j] == name;
    var cycle := (path + [name])[j..];
    assert IsCycle(cycle, names, deps);
  }

  /** Sorts any relation: each name once, and dependencies first exactly when the relation has no cycle. */
  method Sort(names: seq<string>, getDeps: Relation) returns (sorted: seq<string>)
    ensures Distinct(sorted) && Members(sorted) == Members(names)
    ensures DependenciesFirst(sorted, Members(names), getDeps) <==> Acyclic(Members(names), getDeps)
  {
    var sorter := new Sorter(names, getDeps);
    for i := 0 to |names|
      invariant sorter.Valid([]) && forall n | n in names[..i] :: n in sorter.visited
    {
      sorter.Visit(names[i], []);
    }
    sorted := sorter.sorted;
    if DependenciesFirst(sorted, Members(names), getDeps) {
      OrderedIsAcyclic(sorted, Members(names), getDeps);
    }
  }
}
