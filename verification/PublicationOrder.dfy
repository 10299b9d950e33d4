/** publicationOrder of scripts/release-packages.ts: a depth-first topological sort with cycle detection. */
module PublicationOrder {
  import opened Wrappers

  datatype Package = Package(
    name: string,
    dependencies: seq<string>,
    optionalDependencies: seq<string>,
    peerDependencies: seq<string>,
    devDependencies: seq<string>)

  /** The runtime dependencies, in the order in which they are visited. Development edges may cycle. */
  function Deps(p: Package): seq<string> {
    p.dependencies + p.optionalDependencies + p.peerDependencies
  }

  /** The package that the name map holds: the last one of that name. */
  function Lookup(packages: seq<Package>, name: string): Option<Package> {
    if packages == [] then None
    else if packages[|packages| - 1].name == name then Some(packages[|packages| - 1])
    else Lookup(packages[..|packages| - 1], name)
  }

  function Names(packages: seq<Package>): set<string> {
    set p | p in packages :: p.name
  }

  ghost predicate UniquelyNamed(packages: seq<Package>) {
    forall i, j | 0 <= i < j < |packages| :: packages[i].name != packages[j].name
  }

  /** `a` depends at run time on the package `b` of the same workspace. */
  predicate DependsOn(packages: seq<Package>, a: Package, b: Package) {
    b.name in Deps(a) && Lookup(packages, b.name) == Some(b)
  }

  ghost predicate IsPath(packages: seq<Package>, path: seq<Package>) {
    && (forall i | 0 <= i < |path| :: path[i] in packages)
    && (forall i | 0 <= i < |path| - 1 :: DependsOn(packages, path[i], path[i + 1]))
  }

  ghost predicate IsCycle(packages: seq<Package>, path: seq<Package>) {
    path != [] && IsPath(packages, path) && DependsOn(packages, path[|path| - 1], path[0])
  }

  ghost predicate HasCycle(packages: seq<Package>) {
    exists path :: IsCycle(packages, path)
  }

  /** Every package comes after all its runtime dependencies among `packages`. */
  ghost predicate DependenciesFirst(packages: seq<Package>, ordered: seq<Package>) {
    forall i, d | 0 <= i < |ordered| && d in Deps(ordered[i]) && Lookup(packages, d).Some? ::
      d in Names(ordered[..i])
  }

  lemma {:induction false} LookupFinds(packages: seq<Package>, name: string)
    ensures Lookup(packages, name).Some? ==>
        Lookup(packages, name).value in packages && Lookup(packages, name).value.name == name
    ensures Lookup(packages, name).None? ==> name !in Names(packages)
  {
    if packages != [] {
      LookupFinds(packages[..|packages| - 1], name);
      assert packages == packages[..|packages| - 1] + [packages[|packages| - 1]];
    }
  }

  lemma LookupUnique(packages: seq<Package>, p: Package)
    requires UniquelyNamed(packages) && p in packages
    ensures Lookup(packages, p.name) == Some(p)
  {
    LookupFinds(packages, p.name);
  }

  // ---------------------------------------------------------------------------------------------
  // A dependency order exists only without cycles

  lemma EarlierDependency(packages: seq<Package>, ordered: seq<Package>, a: nat, b: nat)
    requires UniquelyNamed(ordered) && DependenciesFirst(packages, ordered)
    requires a < |ordered| && b < |ordered| && DependsOn(packages, ordered[a], ordered[b])
    ensures b < a
  {
    assert ordered[b].name in Names(ordered[..a]);
    var p :| p in ordered[..a] && p.name == ordered[b].name;
  }

  lemma {:induction false} PathDescends(
      packages: seq<Package>, ordered: seq<Package>, path: seq<Package>, i: nat, j: nat)
    requires UniquelyNamed(ordered) && DependenciesFirst(packages, ordered) && IsPath(packages, path)
    requires 0 < |path| && i < |ordered| && j < |ordered| && ordered[i] == path[0] && ordered[j] == path[|path| - 1]
    requires forall p | p in packages :: p in ordered
    ensures j <= i
    decreases |path|
  {
    if |path| > 1 {
      var before := path[..|path| - 1];
      assert path[|path| - 2] in packages;
      var k :| 0 <= k < |ordered| && ordered[k] == path[|path| - 2];
      PathDescends(packages, ordered, before, i, k);
      assert DependsOn(packages, path[|path| - 2], path[|path| - 2 + 1]);
      EarlierDependency(packages, ordered, k, j);
    }
  }

  lemma OrderedHasNoCycle(packages: seq<Package>, ordered: seq<Package>)
    requires UniquelyNamed(ordered) && DependenciesFirst(packages, ordered)
    requires forall p | p in packages :: p in ordered
    ensures !HasCycle(packages)
  {
    if HasCycle(packages) {
      var path :| IsCycle(packages, path);
      assert path[0] in packages && path[|path| - 1] in packages;
      var i :| 0 <= i < |ordered| && ordered[i] == path[0];
      var j :| 0 <= j < |ordered| && ordered[j] == path[|path| - 1];
      PathDescends(packages, ordered, path, i, j);
      EarlierDependency(packages, ordered, j, i);
      assert false;
    }
  }

  // ---------------------------------------------------------------------------------------------
  // The sort

  lemma NamesOfAppend(s: seq<Package>, p: Package)
    ensures Names(s + [p]) == Names(s) + {p.name}
  {
    assert forall q | q in s + [p] :: q in s || q == p;
    assert p in s + [p] && forall q | q in s :: q in s + [p];
  }

  class Sorter {
    const packages: seq<Package>
    var ordered: seq<Package>
    var visiting: set<string>
    var visited: set<string>
    /** The packages whose visit has begun and not ended, outermost first. */
    ghost var stack: seq<Package>

    constructor (packages: seq<Package>)
      ensures this.packages == packages && Valid() && ordered == [] && stack == []
    {
      this.packages := packages;
      ordered := [];
      visiting := {};
      visited := {};
      stack := [];
    }

    ghost predicate Valid()
      reads this
    {
      && visiting == Names(stack)
      && visited == Names(ordered)
      && visiting !! visited
      && visiting <= Names(packages)
      && IsPath(packages, stack)
      && UniquelyNamed(ordered)
      && (forall p | p in ordered :: p in packages)
      && DependenciesFirst(packages, ordered)
    }

    /** The package may be visited next: it is a first one, or a dependency of the innermost visit. */
    ghost predicate IsNext(p: Package)
      reads this
    {
      p in packages && (stack != [] ==> DependsOn(packages, stack[|stack| - 1], p))
    }

    /** It reports whether it ended without a thrown error. */
    method Visit(p: Package) returns (ok: bool)
      requires Valid() && IsNext(p)
      modifies this
      ensures ok ==> Valid() && p.name in visited && stack == old(stack) && visiting == old(visiting)
      ensures ok ==> old(ordered) <= ordered && old(visited) <= visited
      ensures !ok && UniquelyNamed(packages) ==> HasCycle(packages)
      decreases |Names(packages) - visiting|, 0
    {
      if p.name in visited {
        return true;
      }
      if p.name in visiting {
        FoundCycle(p);
        return false;
      }
      FewerLeft(p);
      Enter(p);
      ok := VisitDependencies(p, old(stack));
      if ok {
        Leave(p, old(stack));
      }
    }

    /** The dependencies of the package whose visit began last. */
    method VisitDependencies(p: Package, ghost outer: seq<Package>) returns (ok: bool)
      requires Valid() && p in packages && stack == outer + [p]
      modifies this
      ensures ok ==> Valid() && stack == old(stack) && visiting == old(visiting)
      ensures ok ==> old(ordered) <= ordered && old(visited) <= visited
      ensures ok ==> forall d | d in Deps(p) && Lookup(packages, d).Some? :: d in visited
      ensures !ok && UniquelyNamed(packages) ==> HasCycle(packages)
      decreases |Names(packages) - visiting|, 1
    {
      var deps := Deps(p);
      var i := 0;
      while i < |deps|
        invariant 0 <= i <= |deps|
        invariant Valid() && stack == old(stack) && visiting == old(visiting)
        invariant old(ordered) <= ordered && old(visited) <= visited
        invariant forall k | 0 <= k < i && Lookup(packages, deps[k]).Some? :: deps[k] in visited
      {
        var target := Lookup(packages, deps[i]);
        LookupFinds(packages, deps[i]);
        if target.Some? {
          ok := Visit(target.value);
          if !ok {
            return false;
          }
        }
        i := i + 1;
      }
      ok := true;
    }

    lemma FoundCycle(p: Package)
      requires Valid() && IsNext(p) && p.name in visiting
      ensures UniquelyNamed(packages) ==> HasCycle(packages)
    {
      var first :| 0 <= first < |stack| && stack[first].name == p.name;
      ClosesCycle(first, p);
    }

    lemma FewerLeft(p: Package)
      requires p in packages && p.name !in visiting
      ensures |Names(packages) - (visiting + {p.name})| < |Names(packages) - visiting|
    {
      assert p.name in Names(packages) - visiting;
      assert Names(packages) - (visiting + {p.name}) == (Names(packages) - visiting) - {p.name};
    }

    /** The start of a visit. */
    method Enter(p: Package)
      requires Valid() && IsNext(p) && p.name !in visited && p.name !in visiting
      modifies this
      ensures Valid() && stack == old(stack) + [p] && visiting == old(visiting) + {p.name}
      ensures visited == old(visited) && ordered == old(ordered)
    {
      NamesOfAppend(stack, p);
      assert p.name in Names(packages);
      visiting := visiting + {p.name};
      stack := stack + [p];
    }

    /** The end of a visit. */
    method Leave(p: Package, ghost outer: seq<Package>)
      requires Valid() && p in packages && stack == outer + [p] && p.name !in Names(outer)
      requires forall d | d in Deps(p) && Lookup(packages, d).Some? :: d in visited
      modifies this
      ensures Valid() && stack == outer && visiting == old(visiting) - {p.name}
      ensures visited == old(visited) + {p.name} && ordered == old(ordered) + [p]
    {
      NamesOfAppend(outer, p);
      NamesOfAppend(ordered, p);
      PushKeepsOrder(ordered, p);
      assert p.name !in Names(ordered);
      assert IsPath(packages, outer) by {
        assert forall i | 0 <= i < |outer| :: outer[i] == stack[i] && stack[i] in packages;
        forall i | 0 <= i < |outer| - 1 ensures DependsOn(packages, outer[i], outer[i + 1]) {
          assert DependsOn(packages, stack[i], stack[i + 1]);
        }
      }
      stack := outer;
      visiting := visiting - {p.name};
      visited := visited + {p.name};
      ordered := ordered + [p];
    }

    lemma ClosesCycle(first: nat, p: Package)
      requires Valid() && IsNext(p) && first < |stack| && stack[first].name == p.name
      ensures UniquelyNamed(packages) ==> HasCycle(packages)
    {
      if UniquelyNamed(packages) {
        LookupUnique(packages, stack[first]);
        LookupUnique(packages, p);
        var path := stack[first..];
        forall i | 0 <= i < |path| - 1 ensures DependsOn(packages, path[i], path[i + 1]) {
          assert DependsOn(packages, stack[first + i], stack[first + i + 1]);
        }
        assert forall i | 0 <= i < |path| :: path[i] == stack[first + i] && stack[first + i] in packages;
        assert IsCycle(packages, path);
      }
    }

    lemma PushKeepsOrder(s: seq<Package>, p: Package)
      requires DependenciesFirst(packages, s)
      requires forall d | d in Deps(p) && Lookup(packages, d).Some? :: d in Names(s)
      ensures DependenciesFirst(packages, s + [p])
    {
      var t := s + [p];
      forall i, d | 0 <= i < |t| && d in Deps(t[i]) && Lookup(packages, d).Some? ensures d in Names(t[..i]) {
        if i < |s| {
          assert t[..i] == s[..i] && t[i] == s[i];
        } else {
          assert t[..i] == s;
        }
      }
    }
  }

  /** It throws exactly when the runtime dependency graph of the uniquely named packages has a cycle;
      otherwise it returns a permutation of them with every dependency before its dependents. Packages of
      the same name do not stop it: then it returns one of each name. */
  method PublicationOrder(packages: seq<Package>) returns (r: Result<seq<Package>, ()>)
    ensures UniquelyNamed(packages) ==> (r.Err? <==> HasCycle(packages))
    ensures UniquelyNamed(packages) && r.Ok? ==> multiset(r.value) == multiset(packages)
    ensures r.Ok? ==> DependenciesFirst(packages, r.value)
    ensures r.Ok? ==>
              UniquelyNamed(r.value) && Names(r.value) == Names(packages) && forall p | p in r.value :: p in packages
  {
    var sorter := new Sorter(packages);
    var i := 0;
    while i < |packages|
      invariant 0 <= i <= |packages|
      invariant sorter.packages == packages && sorter.Valid() && sorter.stack == []
      invariant Names(packages[..i]) <= sorter.visited
    {
      var ok := sorter.Visit(packages[i]);
      if !ok {
        return Err(());
      }
      NamesOfAppend(packages[..i], packages[i]);
      assert packages[..i + 1] == packages[..i] + [packages[i]];
      i := i + 1;
    }
    assert packages[..i] == packages;
    r := Ok(sorter.ordered);
    SameNames(packages, r.value);
    if UniquelyNamed(packages) {
      SamePackages(packages, r.value);
      OrderedHasNoCycle(packages, r.value);
    }
  }

  lemma SameNames(packages: seq<Package>, ordered: seq<Package>)
    requires Names(packages) <= Names(ordered) && forall p | p in ordered :: p in packages
    ensures Names(packages) == Names(ordered)
  {
  }

  lemma SamePackages(packages: seq<Package>, ordered: seq<Package>)
    requires UniquelyNamed(packages) && UniquelyNamed(ordered) && Names(packages) == Names(ordered)
    requires forall p | p in ordered :: p in packages
    ensures forall p | p in packages :: p in ordered
    ensures multiset(ordered) == multiset(packages)
  {
    forall p | p in packages ensures p in ordered {
      assert p.name in Names(ordered);
      var q :| q in ordered && q.name == p.name;
      assert q in packages;
    }
    OnceEach(packages);
    OnceEach(ordered);
    forall p ensures multiset(ordered)[p] == multiset(packages)[p] {
      assert p in packages <==> p in ordered;
    }
  }

  lemma {:induction false} OnceEach(s: seq<Package>)
    requires UniquelyNamed(s)
    ensures forall p :: multiset(s)[p] == if p in s then 1 else 0
  {
    if s != [] {
      var front, last := s[..|s| - 1], s[|s| - 1];
      assert s == front + [last];
      OnceEach(front);
      assert last !in front;
      assert forall p :: p in s <==> p in front || p == last;
    }
  }
}
